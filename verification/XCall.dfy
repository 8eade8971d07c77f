/**
 The xCall contract of the Soroban implementation as steps over a value: the storage of
 the contract before a transaction is mapped to the storage after it, or to the error
 that makes the host discard the transaction.

 Hashes are free constructors, so two digests are equal exactly when the hashed values
 are. The dapp's behaviour, contract detection and the size of the encoded message are
 parameters. The host forbids a called contract to call back, so a dapp call is one
 outcome.
 */
module XCall {
  import opened Bytes

  // Texts are byte strings.
  type Addr = bytes
  type Nid = bytes

  datatype Digest<T> = Keccak(preimage: T)

  datatype NetworkAddress = NetworkAddress(nid: Nid, account: Addr)

  datatype MessageType = Call | CallWithRollback | CallPersisted

  datatype CSRequest = CSRequest(
    from: NetworkAddress, to: Addr, sn: nat, msgType: MessageType, data: bytes, protocols: seq<Addr>)

  /** A request whose data was replaced by its hash, as kept until execution. */
  datatype ProxyRequest = ProxyRequest(
    from: NetworkAddress, to: Addr, sn: nat, msgType: MessageType, data: Digest<bytes>, protocols: seq<Addr>)

  datatype ResponseCode = Failure | Success

  /** The reply carried by a result: nothing, bytes that do not decode, or a request. */
  datatype ReplyBody = Empty | Undecodable(raw: bytes) | Reply(request: CSRequest)

  datatype CSResult = CSResult(sn: nat, code: ResponseCode, message: ReplyBody)

  datatype CSMessage = RequestMessage(request: CSRequest) | ResultMessage(result: CSResult)

  datatype Rollback = Rollback(
    from: Addr, to: NetworkAddress, protocols: seq<Addr>, data: bytes, enabled: bool)

  datatype AnyMessage =
    | CallMessage(data: bytes)
    | CallMessageWithRollback(data: bytes, rollback: bytes)
    | CallMessagePersisted(data: bytes)
  {
    function Type(): MessageType {
      match this
      case CallMessage(_) => Call
      case CallMessageWithRollback(_, _) => CallWithRollback
      case CallMessagePersisted(_) => CallPersisted
    }
  }

  datatype Envelope = Envelope(message: AnyMessage, sources: seq<Addr>, destinations: seq<Addr>)

  /** One call of a connection's `send_message`. */
  datatype Outgoing = Outgoing(connection: Addr, nid: Nid, message: CSMessage)

  datatype Error =
    | InvalidSourceNetwork | NetworkIdMismatch | ProtocolsMismatch | CallRequestNotFound
    | InvalidReplyReceived | InvalidRequestId | DataMismatch | RollbackNotEnabled
    | RollbackNotPossible | NoRollbackData | MaxRollbackSizeExceeded | MaxDataSizeExceeded
    | NoDefaultConnection | InvalidAddress | DappPanicked

  datatype Outcome<+T> = Ok(value: T) | Err(error: Error)

  datatype State = State(
    networkId: Nid,
    sn: nat,
    lastReqId: nat,
    defaultConnections: map<Nid, Addr>,
    rollbacks: map<nat, Rollback>,
    proxyRequests: map<nat, ProxyRequest>,
    pendingRequests: map<Digest<CSRequest>, seq<Addr>>,
    pendingResponses: map<Digest<CSResult>, seq<Addr>>,
    successes: set<nat>)

  const MAX_ROLLBACK_SIZE: nat := 1024
  const MAX_DATA_SIZE: nat := 2048

  function Initial(networkId: Nid): State {
    State(networkId, 0, 0, map[], map[], map[], map[], map[], {})
  }

  function Proxy(req: CSRequest, protocols: seq<Addr>): ProxyRequest {
    ProxyRequest(req.from, req.to, req.sn, req.msgType, Keccak(req.data), protocols)
  }

  // ---------------------------------------------------------------- sending

  /** The host takes texts of 56 characters for addresses and panics on others. */
  predicate IsAddress(text: Addr) { |text| == 56 }

  predicate AllAddresses(texts: seq<Addr>) { forall i :: 0 <= i < |texts| ==> IsAddress(texts[i]) }

  /** The connections a message goes through: those listed, or the network's default. */
  function Route(st: State, nid: Nid, listed: seq<Addr>): Outcome<seq<Addr>> {
    if listed == [] && nid !in st.defaultConnections then Err(NoDefaultConnection) else
    var connections := if listed == [] then [st.defaultConnections[nid]] else listed;
    if AllAddresses(connections) then Ok(connections) else Err(InvalidAddress)
  }

  function SendVia(connections: seq<Addr>, nid: Nid, msg: CSMessage): (out: seq<Outgoing>)
    ensures |out| == |connections|
    ensures forall i :: 0 <= i < |out| ==> out[i] == Outgoing(connections[i], nid, msg)
  {
    seq(|connections|, i requires 0 <= i < |connections| => Outgoing(connections[i], nid, msg))
  }

  function CheckRollback(isContract: bool, data: bytes): Outcome<()> {
    if !isContract then Err(RollbackNotPossible)
    else if data == [] then Err(NoRollbackData)
    else if |data| > MAX_ROLLBACK_SIZE then Err(MaxRollbackSizeExceeded)
    else Ok(())
  }

  function IssuedRequest(st: State, sender: Addr, envelope: Envelope, to: NetworkAddress): CSRequest {
    CSRequest(NetworkAddress(st.networkId, sender), to.account, st.sn + 1,
              envelope.message.Type(), envelope.message.data, envelope.destinations)
  }

  function SendCall(st: State, sender: Addr, isContract: bool, envelope: Envelope, to: NetworkAddress, encodedSize: nat)
    : Outcome<(State, seq<Outgoing>)>
  {
    var sn := st.sn + 1;
    var st1 := st.(sn := sn);
    var check := if envelope.message.CallMessageWithRollback?
      then CheckRollback(isContract, envelope.message.rollback) else Ok(());
    if check.Err? then Err(check.error) else
    var st2 := if envelope.message.CallMessageWithRollback?
               then st1.(rollbacks := st1.rollbacks[sn := Rollback(sender, to, envelope.sources,
                 envelope.message.rollback, false)])
               else st1;
    if encodedSize > MAX_DATA_SIZE then Err(MaxDataSizeExceeded) else
    var route := Route(st2, to.nid, envelope.sources);
    if route.Err? then Err(route.error) else
    Ok((st2, SendVia(route.value, to.nid, RequestMessage(IssuedRequest(st, sender, envelope, to)))))
  }

  // -------------------------------------------------------------- receiving

  predicate ValidSource(st: State, sender: Addr, srcNet: Nid, protocols: seq<Addr>) {
    || sender in protocols
    || (protocols == [] && srcNet in st.defaultConnections && sender == st.defaultConnections[srcNet])
  }

  function Lookup<K, V>(m: map<K, seq<V>>, k: K): seq<V> {
    if k in m then m[k] else []
  }

  function Register(pending: seq<Addr>, source: Addr): seq<Addr> {
    if source in pending then pending else pending + [source]
  }

  function OpenProxy(st: State, proxy: ProxyRequest): State {
    st.(lastReqId := st.lastReqId + 1, proxyRequests := st.proxyRequests[st.lastReqId + 1 := proxy])
  }

  function HandleRequest(st: State, sender: Addr, fromNet: Nid, req: CSRequest): Outcome<State> {
    if req.from.nid != fromNet then Err(NetworkIdMismatch)
    else if !ValidSource(st, sender, fromNet, req.protocols) then Err(ProtocolsMismatch)
    else if |req.protocols| > 1 then
      var key := Keccak(req);
      var pending := Register(Lookup(st.pendingRequests, key), sender);
      if |pending| != |req.protocols| then
        Ok(st.(pendingRequests := st.pendingRequests[key := pending]))
      else
        Ok(OpenProxy(st.(pendingRequests := st.pendingRequests - {key}), Proxy(req, req.protocols)))
    else
      Ok(OpenProxy(st, Proxy(req, req.protocols)))
  }

  function HandleReply(st: State, rollback: Rollback, reply: CSRequest): Outcome<State> {
    if rollback.to.nid != reply.from.nid then Err(InvalidReplyReceived)
    else Ok(OpenProxy(st, Proxy(reply, rollback.protocols)))
  }

  /** What a result does once every connection agreed on it. */
  function Conclude(st: State, rollback: Rollback, res: CSResult): Outcome<State> {
    match res.code
    case Success =>
      var st1 := st.(rollbacks := st.rollbacks - {res.sn}, successes := st.successes + {res.sn});
      if res.message.Reply? then HandleReply(st1, rollback, res.message.request) else Ok(st1)
    case Failure =>
      Ok(st.(rollbacks := st.rollbacks[res.sn := rollback.(enabled := true)]))
  }

  function HandleResult(st: State, sender: Addr, res: CSResult): Outcome<State> {
    if res.sn !in st.rollbacks then Err(CallRequestNotFound) else
    var rollback := st.rollbacks[res.sn];
    if !ValidSource(st, sender, rollback.to.nid, rollback.protocols) then Err(ProtocolsMismatch)
    else if |rollback.protocols| > 1 then
      var key := Keccak(res);
      var pending := Register(Lookup(st.pendingResponses, key), sender);
      if |pending| != |rollback.protocols| then
        Ok(st.(pendingResponses := st.pendingResponses[key := pending]))
      else
        Conclude(st.(pendingResponses := st.pendingResponses - {key}), rollback, res)
    else
      Conclude(st, rollback, res)
  }

  function HandleMessage(st: State, sender: Addr, fromNid: Nid, msg: CSMessage): Outcome<State> {
    if st.networkId == fromNid then Err(InvalidSourceNetwork)
    else match msg
      case RequestMessage(req) => HandleRequest(st, sender, fromNid, req)
      case ResultMessage(res) => HandleResult(st, sender, res)
  }

  /** A connection gives up on a message: the failure result it would have delivered. */
  function RevertResult(sn: nat): CSResult { CSResult(sn, Failure, Empty) }

  function HandleError(st: State, sender: Addr, sn: nat): Outcome<State> {
    HandleResult(st, sender, RevertResult(sn))
  }

  // -------------------------------------------------------------- executing

  function CodeOf(dappOk: bool): ResponseCode { if dappOk then Success else Failure }

  function ExecuteCall(st: State, reqId: nat, data: bytes, dappOk: bool): Outcome<(State, seq<Outgoing>)> {
    if reqId !in st.proxyRequests then Err(InvalidRequestId) else
    var req := st.proxyRequests[reqId];
    if Keccak(data) != req.data then Err(DataMismatch)
    else if !IsAddress(req.to) then Err(InvalidAddress) else
    var st1 := st.(proxyRequests := st.proxyRequests - {reqId});
    match req.msgType
    case Call => Ok((st1, []))
    case CallPersisted => if dappOk then Ok((st1, [])) else Err(DappPanicked)
    case CallWithRollback =>
      var route := Route(st1, req.from.nid, req.protocols);
      if route.Err? then Err(route.error)
      else Ok((st1, SendVia(route.value, req.from.nid, ResultMessage(CSResult(req.sn, CodeOf(dappOk), Empty)))))
  }

  function ExecuteRollback(st: State, sn: nat, dappOk: bool): Outcome<State> {
    if sn !in st.rollbacks then Err(CallRequestNotFound)
    else if !st.rollbacks[sn].enabled then Err(RollbackNotEnabled)
    else if !dappOk then Err(DappPanicked)
    else Ok(st.(rollbacks := st.rollbacks - {sn}))
  }

  // ------------------------------------------------- temporary storage, admin

  /** Temporary entries may vanish between transactions. */
  datatype TemporaryKey =
    | RollbackKey(sn: nat)
    | ProxyKey(reqId: nat)
    | PendingRequestKey(request: Digest<CSRequest>)
    | PendingResponseKey(result: Digest<CSResult>)

  function Expire(st: State, key: TemporaryKey): State {
    match key
    case RollbackKey(sn) => st.(rollbacks := st.rollbacks - {sn})
    case ProxyKey(id) => st.(proxyRequests := st.proxyRequests - {id})
    case PendingRequestKey(k) => st.(pendingRequests := st.pendingRequests - {k})
    case PendingResponseKey(k) => st.(pendingResponses := st.pendingResponses - {k})
  }

  function SetDefaultConnection(st: State, nid: Nid, connection: Addr): State {
    st.(defaultConnections := st.defaultConnections[nid := connection])
  }
}
