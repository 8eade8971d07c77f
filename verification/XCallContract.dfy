/**
 The Soroban contract as it is written: entry points that read and write storage step by
 step. The handlers may fail after writing; the entry points then put the storage back, as
 the host does. Each method is proved against the transaction functions of module XCall.
 */
module XCallContract {
  import opened Bytes
  import opened XCall
  import opened XCallRuns

  /** What a run hands to connections, in order. */
  function Messages(c: Chain, steps: seq<Step>): seq<Outgoing>
    decreases |steps|
  {
    if steps == [] then []
    else Messages(c, steps[..|steps| - 1]) + Apply(Run(c, steps[..|steps| - 1]), steps[|steps| - 1]).1
  }

  class Contract {
    var networkId: Nid
    var sn: nat
    var lastReqId: nat
    var defaultConnections: map<Nid, Addr>
    var rollbacks: map<nat, Rollback>
    var proxyRequests: map<nat, ProxyRequest>
    var pendingRequests: map<Digest<CSRequest>, seq<Addr>>
    var pendingResponses: map<Digest<CSResult>, seq<Addr>>
    var successes: set<nat>

    function Storage(): State
      reads this
    {
      State(networkId, sn, lastReqId, defaultConnections, rollbacks, proxyRequests, pendingRequests, pendingResponses,
        successes)
    }

    constructor (nid: Nid)
      ensures Storage() == Initial(nid)
    {
      networkId, sn, lastReqId := nid, 0, 0;
      defaultConnections, rollbacks, proxyRequests := map[], map[], map[];
      pendingRequests, pendingResponses, successes := map[], map[], {};
    }

    /** The host discards every write of a failed transaction. */
    method Restore(st: State)
      modifies this
      ensures Storage() == st
    {
      networkId, sn, lastReqId := st.networkId, st.sn, st.lastReqId;
      defaultConnections, rollbacks, proxyRequests := st.defaultConnections, st.rollbacks, st.proxyRequests;
      pendingRequests, pendingResponses, successes := st.pendingRequests, st.pendingResponses, st.successes;
    }

    // ------------------------------------------------------------ sending

    method ProcessMessage(to: NetworkAddress, seqNo: nat, sender: Addr, isContract: bool, envelope: Envelope)
        returns (r: Outcome<()>)
      modifies this
      ensures r == if envelope.message.CallMessageWithRollback?
        then CheckRollback(isContract, envelope.message.rollback) else Ok(())
      ensures r.Ok? ==> Storage() == if envelope.message.CallMessageWithRollback?
        then old(Storage()).(rollbacks := old(rollbacks)[seqNo := Rollback(sender, to, envelope.sources,
          envelope.message.rollback, false)])
        else old(Storage())
    {
      match envelope.message
      case CallMessage(_) => return Ok(());
      case CallMessagePersisted(_) => return Ok(());
      case CallMessageWithRollback(_, data) =>
        r := CheckRollback(isContract, data);
        if r.Ok? {
          rollbacks := rollbacks[seqNo := Rollback(sender, to, envelope.sources, data, false)];
        }
    }

    /** One `send_message` per connection: those listed, or the network's default. */
    method CallConnections(nid: Nid, listed: seq<Addr>, msg: CSMessage) returns (r: Outcome<seq<Outgoing>>)
      ensures match Route(Storage(), nid, listed)
        case Ok(route) => r == Ok(SendVia(route, nid, msg))
        case Err(e) => r == Err(e)
    {
      var connections := listed;
      if connections == [] {
        if nid !in defaultConnections { return Err(NoDefaultConnection); }
        connections := [defaultConnections[nid]];
      }
      var out: seq<Outgoing> := [];
      for i := 0 to |connections|
        invariant out == SendVia(connections[..i], nid, msg) && AllAddresses(connections[..i])
      {
        if !IsAddress(connections[i]) { return Err(InvalidAddress); }
        out := out + [Outgoing(connections[i], nid, msg)];
      }
      assert connections[..|connections|] == connections;
      return Ok(out);
    }

    method SendCall(sender: Addr, isContract: bool, envelope: Envelope, to: NetworkAddress, encodedSize: nat)
      returns (r: Outcome<(nat, seq<Outgoing>)>)
      modifies this
      ensures match XCall.SendCall(old(Storage()), sender, isContract, envelope, to, encodedSize)
        case Ok((st', out)) => Storage() == st' && r == Ok((st'.sn, out))
        case Err(e) => Storage() == old(Storage()) && r == Err(e)
    {
      var before := Storage();
      sn := sn + 1;
      var seqNo := sn;
      var processed := ProcessMessage(to, seqNo, sender, isContract, envelope);
      if processed.Err? {
        Restore(before);
        return Err(processed.error);
      }
      var request := CSRequest(NetworkAddress(networkId, sender), to.account, seqNo,
                               envelope.message.Type(), envelope.message.data, envelope.destinations);
      if encodedSize > MAX_DATA_SIZE {
        Restore(before);
        return Err(MaxDataSizeExceeded);
      }
      var sent := CallConnections(to.nid, envelope.sources, RequestMessage(request));
      if sent.Err? {
        Restore(before);
        return Err(sent.error);
      }
      return Ok((seqNo, sent.value));
    }

    // ---------------------------------------------------------- receiving

    method StoreProxy(proxy: ProxyRequest)
      modifies this
      ensures Storage() == OpenProxy(old(Storage()), proxy)
    {
      lastReqId := lastReqId + 1;
      proxyRequests := proxyRequests[lastReqId := proxy];
    }

    method HandleRequest(sender: Addr, fromNet: Nid, req: CSRequest) returns (r: Outcome<()>)
      modifies this
      ensures match XCall.HandleRequest(old(Storage()), sender, fromNet, req)
        case Ok(st') => r == Ok(()) && Storage() == st'
        case Err(e) => r == Err(e) && Storage() == old(Storage())
    {
      if req.from.nid != fromNet { return Err(NetworkIdMismatch); }
      if !ValidSource(Storage(), sender, fromNet, req.protocols) { return Err(ProtocolsMismatch); }
      if |req.protocols| > 1 {
        var key := Keccak(req);
        var pending := Lookup(pendingRequests, key);
        if sender !in pending {
          pending := pending + [sender];
          pendingRequests := pendingRequests[key := pending];
        }
        if |pending| != |req.protocols| {
          return Ok(());
        }
        pendingRequests := pendingRequests - {key};
      }
      StoreProxy(Proxy(req, req.protocols));
      return Ok(());
    }

    method HandleReply(rollback: Rollback, reply: CSRequest) returns (r: Outcome<()>)
      modifies this
      ensures match XCall.HandleReply(old(Storage()), rollback, reply)
        case Ok(st') => r == Ok(()) && Storage() == st'
        case Err(e) => r == Err(e)
    {
      if rollback.to.nid != reply.from.nid { return Err(InvalidReplyReceived); }
      StoreProxy(Proxy(reply, rollback.protocols));
      return Ok(());
    }

    method HandleResult(sender: Addr, res: CSResult) returns (r: Outcome<()>)
      modifies this
      ensures match XCall.HandleResult(old(Storage()), sender, res)
        case Ok(st') => r == Ok(()) && Storage() == st'
        case Err(e) => r == Err(e)
    {
      if res.sn !in rollbacks { return Err(CallRequestNotFound); }
      var rollback := rollbacks[res.sn];
      if !ValidSource(Storage(), sender, rollback.to.nid, rollback.protocols) { return Err(ProtocolsMismatch); }
      if |rollback.protocols| > 1 {
        var key := Keccak(res);
        var pending := Lookup(pendingResponses, key);
        if sender !in pending {
          pending := pending + [sender];
          pendingResponses := pendingResponses[key := pending];
        }
        if |pending| != |rollback.protocols| {
          return Ok(());
        }
        pendingResponses := pendingResponses - {key};
      }
      match res.code
      case Success =>
        rollbacks := rollbacks - {res.sn};
        successes := successes + {res.sn};
        if res.message.Reply? {
          r := HandleReply(rollback, res.message.request);
          return;
        }
        return Ok(());
      case Failure =>
        rollbacks := rollbacks[res.sn := rollback.(enabled := true)];
        return Ok(());
    }

    method HandleMessage(sender: Addr, fromNid: Nid, msg: CSMessage) returns (r: Outcome<()>)
      modifies this
      ensures match XCall.HandleMessage(old(Storage()), sender, fromNid, msg)
        case Ok(st') => r == Ok(()) && Storage() == st'
        case Err(e) => r == Err(e) && Storage() == old(Storage())
    {
      var before := Storage();
      if networkId == fromNid { return Err(InvalidSourceNetwork); }
      match msg {
        case RequestMessage(req) => r := HandleRequest(sender, fromNid, req);
        case ResultMessage(res) => r := HandleResult(sender, res);
      }
      if r.Err? { Restore(before); }
    }

    method HandleError(sender: Addr, seqNo: nat) returns (r: Outcome<()>)
      modifies this
      ensures match XCall.HandleError(old(Storage()), sender, seqNo)
        case Ok(st') => r == Ok(()) && Storage() == st'
        case Err(e) => r == Err(e) && Storage() == old(Storage())
    {
      var before := Storage();
      r := HandleResult(sender, CSResult(seqNo, Failure, Empty));
      if r.Err? { Restore(before); }
    }

    // ---------------------------------------------------------- executing

    method ExecuteCall(reqId: nat, data: bytes, dappOk: bool) returns (r: Outcome<seq<Outgoing>>)
      modifies this
      ensures match XCall.ExecuteCall(old(Storage()), reqId, data, dappOk)
        case Ok((st', out)) => r == Ok(out) && Storage() == st'
        case Err(e) => r == Err(e) && Storage() == old(Storage())
    {
      var before := Storage();
      if reqId !in proxyRequests { return Err(InvalidRequestId); }
      var req := proxyRequests[reqId];
      if Keccak(data) != req.data { return Err(DataMismatch); }
      proxyRequests := proxyRequests - {reqId};
      if !IsAddress(req.to) {
        Restore(before);
        return Err(InvalidAddress);
      }
      match req.msgType
      case Call => return Ok([]);
      case CallPersisted =>
        if !dappOk {
          Restore(before);
          return Err(DappPanicked);
        }
        return Ok([]);
      case CallWithRollback =>
        var result := CSResult(req.sn, CodeOf(dappOk), Empty);
        r := CallConnections(req.from.nid, req.protocols, ResultMessage(result));
        if r.Err? { Restore(before); }
    }

    method ExecuteRollback(seqNo: nat, dappOk: bool) returns (r: Outcome<()>)
      modifies this
      ensures match XCall.ExecuteRollback(old(Storage()), seqNo, dappOk)
        case Ok(st') => r == Ok(()) && Storage() == st'
        case Err(e) => r == Err(e) && Storage() == old(Storage())
    {
      var before := Storage();
      if seqNo !in rollbacks { return Err(CallRequestNotFound); }
      if !rollbacks[seqNo].enabled { return Err(RollbackNotEnabled); }
      rollbacks := rollbacks - {seqNo};
      if !dappOk {
        Restore(before);
        return Err(DappPanicked);
      }
      return Ok(());
    }

    // ------------------------------------------------ storage, admin, whole runs

    /** A temporary entry is gone. */
    method Vanish(key: TemporaryKey)
      modifies this
      ensures Storage() == Expire(old(Storage()), key)
    {
      match key
      case RollbackKey(n) => rollbacks := rollbacks - {n};
      case ProxyKey(id) => proxyRequests := proxyRequests - {id};
      case PendingRequestKey(k) => pendingRequests := pendingRequests - {k};
      case PendingResponseKey(k) => pendingResponses := pendingResponses - {k};
    }

    method SetDefault(nid: Nid, connection: Addr)
      modifies this`defaultConnections
      ensures Storage() == SetDefaultConnection(old(Storage()), nid, connection)
    {
      defaultConnections := defaultConnections[nid := connection];
    }

    /** One step of a run; `c` is the run so far. */
    method Perform(step: Step, ghost c: Chain) returns (out: seq<Outgoing>)
      requires Storage() == c.st
      modifies this
      ensures Storage() == Apply(c, step).0.st && out == Apply(c, step).1
    {
      hide XCall.SendCall, XCall.HandleMessage, XCall.HandleError, XCall.ExecuteCall, XCall.ExecuteRollback;
      out := [];
      match step
      case Send(sender, isContract, envelope, to, size) =>
        var r := SendCall(sender, isContract, envelope, to, size);
        if r.Ok? { out := r.value.1; }
      case Deliver(sender, fromNid, msg) => var _ := HandleMessage(sender, fromNid, msg);
      case Revert(sender, n) => var _ := HandleError(sender, n);
      case Execute(reqId, data, dappOk) =>
        var r := ExecuteCall(reqId, data, dappOk);
        if r.Ok? { out := r.value; }
      case RunRollback(n, dappOk) => var _ := ExecuteRollback(n, dappOk);
      case Vanish(key) => Vanish(key);
      case SetDefault(nid, connection) => SetDefault(nid, connection);
    }

    /** Any calls, in any order: the storage and the messages of the run. */
    method Play(steps: seq<Step>, ghost c: Chain) returns (out: seq<Outgoing>)
      requires Storage() == c.st
      modifies this
      ensures Storage() == Run(c, steps).st && out == Messages(c, steps)
    {
      hide Apply;
      out := [];
      for i := 0 to |steps|
        invariant Storage() == Run(c, steps[..i]).st && out == Messages(c, steps[..i])
      {
        assert steps[..i + 1][..i] == steps[..i];
        var sent := Perform(steps[i], Run(c, steps[..i]));
        out := out + sent;
      }
      assert steps[..|steps|] == steps;
    }
  }

  /** A deployed contract after any calls: its fields are those of the run, whose invariants all hold.
      So no pending list is complete or repeats a connection, a number is recorded as success or
      still has its record but not both, and request ids never exceed the counter. */
  method Deploy(nid: Nid, steps: seq<Step>) returns (contract: Contract, out: seq<Outgoing>)
    ensures fresh(contract) && contract.Storage() == Run(Start(nid), steps).st && out == Messages(Start(nid), steps)
    ensures Inv(Run(Start(nid), steps))
    ensures forall k :: k in contract.pendingRequests ==>
      var p := contract.pendingRequests[k];
      NoDup(p) && |p| < |k.preimage.protocols| && forall a :: a in p ==> a in k.preimage.protocols
    ensures forall n :: n in contract.rollbacks ==> n !in contract.successes && 1 <= n <= contract.sn
    ensures forall id :: id in contract.proxyRequests ==> 1 <= id <= contract.lastReqId
  {
    contract := new Contract(nid);
    out := contract.Play(steps, Start(nid));
    RunKeeps(nid, steps);
    InvOnFields(Run(Start(nid), steps));
  }

  lemma InvOnFields(c: Chain)
    requires Inv(c)
    ensures PendingRequestsOk(c.st)
    ensures forall n :: n in c.st.rollbacks ==> n !in c.st.successes && 1 <= n <= c.st.sn
    ensures forall id :: id in c.st.proxyRequests ==> 1 <= id <= c.st.lastReqId
  {
  }
}
