/**
 Every run of one xCall contract: any senders, any messages, any dapp behaviour, entries
 of temporary storage vanishing at any moment. The history is bookkeeping next to the
 storage; it is computed from the storage before and after a step, never read by a step.
 */
module XCallRuns {
  import opened Bytes
  import opened XCall

  /** Where a proxy request came from. */
  datatype Origin = FromRequest(request: CSRequest) | FromReply(result: CSResult)

  datatype Issued = Issued(request: CSRequest, sources: seq<Addr>, to: NetworkAddress)

  datatype History = History(
    delivered: multiset<(Addr, CSRequest)>,  // accepted deliveries of requests
    results: set<(Addr, CSResult)>,          // accepted deliveries of results, reverts included
    defaults: set<(Nid, Addr)>,              // every connection that ever was a network's default
    issued: map<nat, Issued>,                // by sequence number
    origin: map<nat, Origin>,                // by request id
    openings: multiset<CSRequest>,             // requests for which a proxy request was opened
    commits: multiset<nat>,                  // executed request ids
    outcome: map<nat, ResponseCode>,         // what the dapp answered, by request id
    verdict: map<nat, CSResult>,             // the last result all connections agreed on
    agreed: set<CSResult>,                   // every result they agreed on
    rolledBack: multiset<nat>,
    succeeded: multiset<nat>)

  datatype Chain = Chain(st: State, h: History)

  datatype Step =
    | Send(sender: Addr, isContract: bool, envelope: Envelope, to: NetworkAddress, encodedSize: nat)
    | Deliver(sender: Addr, fromNid: Nid, msg: CSMessage)
    | Revert(sender: Addr, sn: nat)
    | Execute(reqId: nat, data: bytes, dappOk: bool)
    | RunRollback(sn: nat, dappOk: bool)
    | Vanish(key: TemporaryKey)
    | SetDefault(nid: Nid, connection: Addr)

  function Start(networkId: Nid): Chain {
    Chain(Initial(networkId),
          History(multiset{}, {}, {}, map[], map[], multiset{}, multiset{}, map[], map[], {}, multiset{},
                  multiset{}))
  }

  // ------------------------------------------------------------------ history

  function NoteOpened(h: History, st: State, st': State, from: Origin): History {
    if st'.lastReqId == st.lastReqId then h
    else h.(origin := h.origin[st'.lastReqId := from],
            openings := if from.FromRequest? then h.openings + multiset{from.request} else h.openings)
  }

  function NoteRequest(h: History, st: State, st': State, sender: Addr, req: CSRequest): History {
    NoteOpened(h.(delivered := h.delivered + multiset{(sender, req)}), st, st', FromRequest(req))
  }

  /** A result was concluded when it removed the record or left it enabled and not pending. */
  predicate Concluded(st: State, st': State, res: CSResult) {
    res.sn in st.rollbacks && (|st.rollbacks[res.sn].protocols| <= 1 || Keccak(res) !in st'.pendingResponses)
  }

  function NoteResult(h: History, st: State, st': State, sender: Addr, res: CSResult): History {
    var h1 := h.(results := h.results + {(sender, res)});
    var h2 := if Concluded(st, st', res) then h1.(verdict := h1.verdict[res.sn := res], agreed := h1.agreed + {res})
              else h1;
    var h3 := if res.sn in st.rollbacks && res.sn !in st'.rollbacks
              then h2.(succeeded := h2.succeeded + multiset{res.sn}) else h2;
    NoteOpened(h3, st, st', FromReply(res))
  }

  /** A step with the messages it sends; a failed transaction changes nothing and sends nothing. */
  function Apply(c: Chain, step: Step): (Chain, seq<Outgoing>) {
    match step
    case Send(sender, isContract, envelope, to, size) =>
      (match SendCall(c.st, sender, isContract, envelope, to, size)
       case Err(_) => (c, [])
       case Ok((st', out)) =>
         (Chain(st', c.h.(issued := c.h.issued[st'.sn := Issued(IssuedRequest(c.st, sender, envelope, to),
           envelope.sources, to)])), out))
    case Deliver(sender, fromNid, msg) =>
      (match HandleMessage(c.st, sender, fromNid, msg)
       case Err(_) => (c, [])
       case Ok(st') =>
         (match msg
          case RequestMessage(req) => (Chain(st', NoteRequest(c.h, c.st, st', sender, req)), [])
          case ResultMessage(res) => (Chain(st', NoteResult(c.h, c.st, st', sender, res)), [])))
    case Revert(sender, sn) =>
      (match HandleError(c.st, sender, sn)
       case Err(_) => (c, [])
       case Ok(st') => (Chain(st', NoteResult(c.h, c.st, st', sender, RevertResult(sn))), []))
    case Execute(reqId, data, dappOk) =>
      (match ExecuteCall(c.st, reqId, data, dappOk)
       case Err(_) => (c, [])
       case Ok((st', out)) =>
         (Chain(st', c.h.(commits := c.h.commits + multiset{reqId}, outcome := c.h.outcome[reqId := CodeOf(dappOk)])),
           out))
    case RunRollback(sn, dappOk) =>
      (match ExecuteRollback(c.st, sn, dappOk)
       case Err(_) => (c, [])
       case Ok(st') => (Chain(st', c.h.(rolledBack := c.h.rolledBack + multiset{sn})), []))
    case Vanish(key) => (Chain(Expire(c.st, key), c.h), [])
    case SetDefault(nid, connection) =>
      (Chain(SetDefaultConnection(c.st, nid, connection), c.h.(defaults := c.h.defaults + {(nid, connection)})), [])
  }

  function Run(c: Chain, steps: seq<Step>): Chain
    decreases |steps|
  {
    if steps == [] then c else Apply(Run(c, steps[..|steps| - 1]), steps[|steps| - 1]).0
  }

  // --------------------------------------------------------------- invariants

  predicate NoDup<T(==)>(s: seq<T>) {
    forall i, j :: 0 <= i < j < |s| ==> s[i] != s[j]
  }

  function One(b: bool): nat { if b then 1 else 0 }

  /** Pending request lists: duplicate-free, drawn from the protocols, never complete. */
  ghost predicate PendingRequestsOk(st: State) {
    forall k :: k in st.pendingRequests ==>
      var p := st.pendingRequests[k];
      && NoDup(p) && (forall a :: a in p ==> a in k.preimage.protocols)
      && |p| < |k.preimage.protocols| && 1 < |k.preimage.protocols|
  }

  /** Each opening of a request used up one delivery of every protocol, and so does being pending. */
  ghost predicate QuorumAccounting(c: Chain) {
    forall r: CSRequest, a: Addr :: a in r.protocols ==>
      c.h.openings[r] + One(a in Lookup(c.st.pendingRequests, Keccak(r))) <= c.h.delivered[(a, r)]
  }

  /** Requests without protocols are opened by a default connection only. */
  ghost predicate DefaultAccounting(c: Chain) {
    && (forall nid :: nid in c.st.defaultConnections ==> (nid, c.st.defaultConnections[nid]) in c.h.defaults)
    && (forall r :: r in c.h.openings && r.protocols == [] ==>
          exists a :: (r.from.nid, a) in c.h.defaults && (a, r) in c.h.delivered)
    && DefaultDeliveries(c.h)
  }

  /** Nobody else delivered the request. */
  ghost predicate OnlyBy(h: History, r: CSRequest, a: Addr) { forall b :: b != a ==> (b, r) !in h.delivered }

  /** Requests without protocols are delivered by default connections; one that a single connection
      delivered is opened at most once per delivery. */
  ghost predicate DefaultDeliveries(h: History) {
    && (forall a, r :: (a, r) in h.delivered && r.protocols == [] ==> (r.from.nid, a) in h.defaults)
    && (forall r: CSRequest, a :: r.protocols == [] && OnlyBy(h, r, a) ==> h.openings[r] <= h.delivered[(a, r)])
  }

  /** Everyone a result needs has delivered it. */
  ghost predicate AllDelivered(h: History, call: Issued, res: CSResult) {
    if call.sources == [] then exists a :: (call.to.nid, a) in h.defaults && (a, res) in h.results
    else forall a :: a in call.sources ==> (a, res) in h.results
  }

  ghost predicate PendingResponsesOk(c: Chain) {
    forall k :: k in c.st.pendingResponses ==>
      var p := c.st.pendingResponses[k];
      && NoDup(p) && (forall a :: a in p ==> (a, k.preimage) in c.h.results)
      && k.preimage.sn in c.h.issued
      && (var sources := c.h.issued[k.preimage.sn].sources;
          (forall a :: a in p ==> a in sources) && |p| < |sources| && 1 < |sources|)
  }

  /** A record, an executed rollback and a recorded success exclude each other, and each happens once. */
  ghost predicate OneEnd(c: Chain) {
    && (forall sn: nat :: c.h.rolledBack[sn] + c.h.succeeded[sn] + One(sn in c.st.rollbacks) <= One(sn in c.h.issued))
    && (forall sn: nat :: sn in c.st.successes <==> c.h.succeeded[sn] > 0)
  }

  /** All connections of a call with rollback agreed on this result. */
  ghost predicate VerdictIs(h: History, sn: nat, code: ResponseCode) {
    && sn in h.verdict && sn in h.issued
    && h.verdict[sn].sn == sn && h.verdict[sn].code == code && h.issued[sn].request.msgType == CallWithRollback
    && AllDelivered(h, h.issued[sn], h.verdict[sn])
  }

  ghost predicate VerdictsOk(c: Chain) {
    && (forall sn :: sn in c.st.rollbacks && c.st.rollbacks[sn].enabled ==> VerdictIs(c.h, sn, Failure))
    && (forall sn: nat :: c.h.rolledBack[sn] > 0 ==> VerdictIs(c.h, sn, Failure))
    && (forall sn: nat :: c.h.succeeded[sn] > 0 ==> VerdictIs(c.h, sn, Success))
  }

  ghost predicate IssuedOk(c: Chain) {
    && (forall sn: nat :: sn in c.h.issued <==> 1 <= sn <= c.st.sn)
    && (forall sn :: sn in c.h.issued ==>
          c.h.issued[sn].request.sn == sn && c.h.issued[sn].request.from.nid == c.st.networkId)
    && (forall sn :: sn in c.st.rollbacks ==>
          && sn in c.h.issued
          && c.st.rollbacks[sn].protocols == c.h.issued[sn].sources
          && c.st.rollbacks[sn].to == c.h.issued[sn].to
          && c.h.issued[sn].request.msgType == CallWithRollback)
  }

  /** The proxy request an origin stands for. */
  ghost predicate ProxyOf(h: History, origin: Origin, proxy: ProxyRequest) {
    match origin
    case FromRequest(r) => proxy == Proxy(r, r.protocols)
    case FromReply(m) =>
      && m.sn in h.issued && m.message.Reply? && proxy == Proxy(m.message.request, h.issued[m.sn].sources)
      && m.message.request.from.nid == h.issued[m.sn].to.nid
  }

  ghost predicate ReplyBacked(h: History, origin: Origin) {
    origin.FromReply? ==> origin.result.sn in h.issued && AllDelivered(h, h.issued[origin.result.sn], origin.result)
  }

  /** Request ids are handed out once, in order. */
  ghost predicate IdsDense(c: Chain) {
    forall id: nat :: id in c.h.origin <==> 1 <= id <= c.st.lastReqId
  }

  ghost predicate ProxiesMatch(c: Chain) {
    && (forall id :: id in c.st.proxyRequests ==>
          id in c.h.origin && ProxyOf(c.h, c.h.origin[id], c.st.proxyRequests[id]))
    && (forall id :: id in c.h.origin ==> ReplyBacked(c.h, c.h.origin[id]))
  }

  /** A request id waits, or was executed once, or neither; never both. */
  ghost predicate ExecutedOnce(c: Chain) {
    && (forall id: nat :: c.h.commits[id] + One(id in c.st.proxyRequests) <= One(id in c.h.origin))
    && (forall id: nat :: id in c.h.outcome <==> c.h.commits[id] > 0)
  }

  /** The account a proxy request of this origin calls. */
  function Target(origin: Origin): Addr {
    match origin
    case FromRequest(r) => r.to
    case FromReply(m) => if m.message.Reply? then m.message.request.to else []
  }

  /** Only requests to accounts that are addresses are executed. */
  ghost predicate ExecutedAddressed(h: History) {
    forall id :: id in h.outcome ==> id in h.origin && IsAddress(Target(h.origin[id]))
  }

  /** Openings are counted: two request ids of one request are two openings. */
  ghost predicate OriginsCounted(h: History) {
    && (forall id :: id in h.origin && h.origin[id].FromRequest? ==> h.openings[h.origin[id].request] >= 1)
    && (forall i, j :: i in h.origin && j in h.origin && i != j && h.origin[i] == h.origin[j]
          && h.origin[i].FromRequest?
          ==> h.openings[h.origin[i].request] >= 2)
  }

  ghost predicate RequestsOk(c: Chain) { PendingRequestsOk(c.st) && QuorumAccounting(c) }

  ghost predicate RecordsOk(c: Chain) { PendingResponsesOk(c) && IssuedOk(c) }

  ghost predicate EndsOk(c: Chain) { OneEnd(c) && VerdictsOk(c) }

  ghost predicate OpeningsOk(c: Chain) {
    IdsDense(c) && ProxiesMatch(c) && ExecutedOnce(c) && ExecutedAddressed(c.h) && OriginsCounted(c.h)
  }

  ghost predicate Inv(c: Chain) {
    RequestsOk(c) && DefaultAccounting(c) && RecordsOk(c) && EndsOk(c) && OpeningsOk(c)
  }

  // ------------------------------------------------------------- pigeonhole

  lemma {:induction false} DistinctCount<T>(s: seq<T>)
    requires NoDup(s)
    ensures |set x | x in s| == |s|
  {
    if s != [] {
      var t := s[..|s| - 1];
      DistinctCount(t);
      assert (set x | x in s) == (set x | x in t) + {s[|s| - 1]};
    } else {
      assert (set x | x in s) == {};
    }
  }

  lemma {:induction false} ElementCount<T>(s: seq<T>)
    ensures |set x | x in s| <= |s|
  {
    if s != [] {
      var t := s[..|s| - 1];
      ElementCount(t);
      assert (set x | x in s) == (set x | x in t) + {s[|s| - 1]};
    } else {
      assert (set x | x in s) == {};
    }
  }

  lemma SubsetCount<T>(a: set<T>, b: set<T>)
    requires a <= b
    ensures |a| <= |b|
    ensures |a| == |b| ==> a == b
  {
    assert b == a + (b - a);
    assert |b| == |a| + |b - a|;
  }

  /** A duplicate-free list drawn from another and as long as it contains all of it. */
  lemma FullListHasAll<T>(p: seq<T>, q: seq<T>)
    requires NoDup(p) && (forall a :: a in p ==> a in q)
    ensures |p| <= |q|
    ensures |p| == |q| ==> forall a :: a in q ==> a in p
  {
    var ps, qs := set x | x in p, set x | x in q;
    DistinctCount(p);
    ElementCount(q);
    SubsetCount(ps, qs);
    if |p| == |q| {
      forall a | a in q ensures a in p { assert a in qs; }
    }
  }

  // ----------------------------------------------------------- preservation

  /** The new list after a delivery: still duplicate-free and drawn from the protocols. */
  lemma RegisterOk(pending: seq<Addr>, source: Addr, protocols: seq<Addr>)
    requires NoDup(pending) && (forall a :: a in pending ==> a in protocols) && source in protocols
    ensures var p := Register(pending, source);
      && NoDup(p) && (forall a :: a in p ==> a in protocols) && |p| <= |protocols|
      && (forall a :: a in p <==> a in pending || a == source)
      && (|p| == |protocols| ==> forall a :: a in protocols ==> a in p)
  {
    var p := Register(pending, source);
    FullListHasAll(p, protocols);
  }

  // Frames: a step that leaves a group's data alone, or only loses temporary entries, keeps
  // the group's invariants.

  ghost predicate Sub<K, V>(m': map<K, V>, m: map<K, V>) {
    forall k :: k in m' ==> k in m && m'[k] == m[k]
  }

  ghost predicate FrameRequests(c: Chain, c': Chain) {
    && Sub(c'.st.pendingRequests, c.st.pendingRequests)
    && c'.h.openings == c.h.openings && c'.h.delivered == c.h.delivered
  }

  ghost predicate FrameDefaults(c: Chain, c': Chain) {
    && c'.st.defaultConnections == c.st.defaultConnections && c.h.defaults == c'.h.defaults
  }

  ghost predicate FrameResults(c: Chain, c': Chain) {
    && Sub(c'.st.pendingResponses, c.st.pendingResponses) && Sub(c'.st.rollbacks, c.st.rollbacks)
    && c'.st.successes == c.st.successes && c'.st.sn == c.st.sn && c'.st.networkId == c.st.networkId
    && c'.h.results == c.h.results && c'.h.issued == c.h.issued
    && c'.h.verdict == c.h.verdict && c'.h.rolledBack == c.h.rolledBack && c'.h.succeeded == c.h.succeeded
    && c.h.defaults <= c'.h.defaults
  }

  ghost predicate FrameProxies(c: Chain, c': Chain) {
    && Sub(c'.st.proxyRequests, c.st.proxyRequests) && c'.st.lastReqId == c.st.lastReqId
    && c'.h.origin == c.h.origin && c'.h.openings == c.h.openings && c'.h.commits == c.h.commits
    && c'.h.outcome == c.h.outcome
    && Sub(c.h.issued, c'.h.issued) && c.h.results <= c'.h.results && c.h.defaults <= c'.h.defaults
  }

  lemma RequestsFramed(c: Chain, c': Chain)
    requires RequestsOk(c) && FrameRequests(c, c')
    ensures RequestsOk(c')
  {
  }

  lemma DefaultsFramed(c: Chain, c': Chain)
    requires DefaultAccounting(c) && FrameDefaults(c, c') && FrameRequests(c, c')
    ensures DefaultAccounting(c')
  {
  }

  lemma VerdictStays(h: History, h': History, sn: nat, code: ResponseCode)
    requires VerdictIs(h, sn, code)
    requires Sub(h.issued, h'.issued) && h.results <= h'.results && h.defaults <= h'.defaults
    requires sn in h'.verdict && h'.verdict[sn] == h.verdict[sn]
    ensures VerdictIs(h', sn, code)
  {
  }

  lemma RecordsFramed(c: Chain, c': Chain)
    requires RecordsOk(c) && FrameResults(c, c')
    ensures RecordsOk(c')
  {
  }

  lemma EndsFramed(c: Chain, c': Chain)
    requires EndsOk(c) && FrameResults(c, c')
    ensures EndsOk(c')
  {
  }

  lemma ResultsFramed(c: Chain, c': Chain)
    requires RecordsOk(c) && EndsOk(c) && FrameResults(c, c')
    ensures RecordsOk(c') && EndsOk(c')
  {
    hide RecordsOk, EndsOk, FrameResults;
    RecordsFramed(c, c');
    EndsFramed(c, c');
  }

  lemma OpeningsFramed(c: Chain, c': Chain)
    requires OpeningsOk(c) && FrameProxies(c, c')
    ensures OpeningsOk(c')
  {
  }

  // What each step leaves alone.

  lemma SendFrames(c: Chain, step: Step)
    requires step.Send?
    ensures var c' := Apply(c, step).0;
      FrameRequests(c, c') && FrameDefaults(c, c') && (c.st.sn + 1 !in c.h.issued ==> FrameProxies(c, c'))
  {
  }

  lemma ExecuteFrames(c: Chain, step: Step)
    requires step.Execute?
    ensures var c' := Apply(c, step).0; FrameRequests(c, c') && FrameDefaults(c, c') && FrameResults(c, c')
  {
    hide SendCall, HandleRequest, HandleReply, HandleResult, HandleMessage, ExecuteCall, ExecuteRollback, Expire;
    if ExecuteCall(c.st, step.reqId, step.data, step.dappOk).Ok? {
      ExecuteRemoves(c.st, step.reqId, step.data, step.dappOk);
    }
  }

  lemma ExecuteRemoves(st: State, reqId: nat, data: bytes, dappOk: bool)
    requires ExecuteCall(st, reqId, data, dappOk).Ok?
    ensures ExecuteCall(st, reqId, data, dappOk).value.0 == st.(proxyRequests := st.proxyRequests - {reqId})
  {
    hide SendVia;
  }

  lemma RollbackFrames(c: Chain, step: Step)
    requires step.RunRollback?
    ensures var c' := Apply(c, step).0; FrameRequests(c, c') && FrameDefaults(c, c') && FrameProxies(c, c')
  {
    hide SendCall, HandleRequest, HandleReply, HandleResult, HandleMessage, ExecuteCall, Expire;
  }

  lemma ExpireFrames(st: State, key: TemporaryKey)
    ensures var st' := Expire(st, key);
      && Sub(st'.pendingRequests, st.pendingRequests) && Sub(st'.pendingResponses, st.pendingResponses)
      && Sub(st'.rollbacks, st.rollbacks) && Sub(st'.proxyRequests, st.proxyRequests)
      && st' == st.(pendingRequests := st'.pendingRequests, pendingResponses := st'.pendingResponses,
                    rollbacks := st'.rollbacks, proxyRequests := st'.proxyRequests)
  {
  }

  lemma VanishFrames(c: Chain, step: Step)
    requires step.Vanish?
    ensures var c' := Apply(c, step).0;
      FrameRequests(c, c') && FrameDefaults(c, c') && FrameResults(c, c') && FrameProxies(c, c')
  {
    hide Expire, SendCall, HandleRequest, HandleReply, HandleResult, HandleMessage, ExecuteCall, ExecuteRollback;
    ExpireFrames(c.st, step.key);
  }

  lemma SetDefaultFrames(c: Chain, step: Step)
    requires step.SetDefault?
    ensures var c' := Apply(c, step).0; FrameRequests(c, c') && FrameResults(c, c') && FrameProxies(c, c')
  {
    hide SendCall, HandleRequest, HandleReply, HandleResult, HandleMessage, ExecuteCall, ExecuteRollback;
  }

  // A request delivered; a result, delivered or standing for a revert.

  function ApplyRequest(c: Chain, sender: Addr, fromNid: Nid, req: CSRequest): Chain {
    match HandleRequest(c.st, sender, fromNid, req)
    case Err(_) => c
    case Ok(st') => Chain(st', NoteRequest(c.h, c.st, st', sender, req))
  }

  function ApplyResult(c: Chain, sender: Addr, res: CSResult): Chain {
    match HandleResult(c.st, sender, res)
    case Err(_) => c
    case Ok(st') => Chain(st', NoteResult(c.h, c.st, st', sender, res))
  }

  lemma RequestSteps(c: Chain, step: Step)
    requires step.Deliver? && step.msg.RequestMessage?
    ensures Apply(c, step).1 == []
    ensures Apply(c, step).0 == c || Apply(c, step).0 == ApplyRequest(c, step.sender, step.fromNid, step.msg.request)
  {
  }

  lemma ResultSteps(c: Chain, step: Step)
    requires (step.Deliver? && step.msg.ResultMessage?) || step.Revert?
    ensures Apply(c, step).1 == []
    ensures Apply(c, step).0 == c ||
      Apply(c, step).0 == ApplyResult(c, step.sender, if step.Revert? then RevertResult(step.sn) else step.msg.result)
  {
  }

  lemma RequestFrames(c: Chain, sender: Addr, fromNid: Nid, req: CSRequest)
    ensures var c' := ApplyRequest(c, sender, fromNid, req); FrameDefaults(c, c')
  {
  }

  lemma RequestFramesResults(c: Chain, sender: Addr, fromNid: Nid, req: CSRequest)
    ensures FrameResults(c, ApplyRequest(c, sender, fromNid, req))
  {
    hide Register, Lookup, ValidSource;
  }

  lemma ResultFrames(c: Chain, sender: Addr, res: CSResult)
    ensures FrameRequests(c, ApplyResult(c, sender, res))
  {
  }

  lemma ResultFramesDefaults(c: Chain, sender: Addr, res: CSResult)
    ensures FrameDefaults(c, ApplyResult(c, sender, res))
  {
  }

  // Requests: the quorum.

  lemma RequestKeepsPending(c: Chain, sender: Addr, fromNid: Nid, req: CSRequest)
    requires PendingRequestsOk(c.st)
    ensures PendingRequestsOk(ApplyRequest(c, sender, fromNid, req).st)
  {
    if HandleRequest(c.st, sender, fromNid, req).Ok? && |req.protocols| > 1 {
      RegisterOk(Lookup(c.st.pendingRequests, Keccak(req)), sender, req.protocols);
    }
  }

  lemma RequestKeepsAccounting(c: Chain, sender: Addr, fromNid: Nid, req: CSRequest)
    requires PendingRequestsOk(c.st) && QuorumAccounting(c)
    ensures QuorumAccounting(ApplyRequest(c, sender, fromNid, req))
  {
    if HandleRequest(c.st, sender, fromNid, req).Ok? && |req.protocols| > 1 {
      RegisterOk(Lookup(c.st.pendingRequests, Keccak(req)), sender, req.protocols);
    }
  }

  lemma RequestKeepsQuorum(c: Chain, sender: Addr, fromNid: Nid, req: CSRequest)
    requires RequestsOk(c)
    ensures RequestsOk(ApplyRequest(c, sender, fromNid, req))
  {
    hide ApplyRequest, PendingRequestsOk, QuorumAccounting;
    RequestKeepsPending(c, sender, fromNid, req);
    RequestKeepsAccounting(c, sender, fromNid, req);
  }

  lemma RequestKeepsDefaults(c: Chain, sender: Addr, fromNid: Nid, req: CSRequest)
    requires DefaultAccounting(c)
    ensures DefaultAccounting(ApplyRequest(c, sender, fromNid, req))
  {
    hide ApplyRequest, DefaultDeliveries;
    var c' := ApplyRequest(c, sender, fromNid, req);
    RequestFrames(c, sender, fromNid, req);
    RequestDelivers(c, sender, fromNid, req);
    if c' != c {
      DeliversKeeps(c.h, c'.h, sender, req);
      forall q | q in c'.h.openings && q.protocols == []
        ensures exists a :: (q.from.nid, a) in c'.h.defaults && (a, q) in c'.h.delivered
      {
        if q in c.h.openings {
          var a :| (q.from.nid, a) in c.h.defaults && (a, q) in c.h.delivered;
          assert (a, q) in c'.h.delivered;
        } else {
          assert q == req && (sender, req) in c'.h.delivered;
        }
      }
    }
  }

  /** A delivery was accepted, with or without an opening. */
  ghost predicate Delivers(h: History, h': History, sender: Addr, req: CSRequest) {
    && h'.delivered == h.delivered + multiset{(sender, req)} && h'.defaults == h.defaults
    && (h'.openings == h.openings || h'.openings == h.openings + multiset{req})
    && (req.protocols == [] ==> (req.from.nid, sender) in h.defaults)
  }

  lemma RequestDelivers(c: Chain, sender: Addr, fromNid: Nid, req: CSRequest)
    requires DefaultAccounting(c)
    ensures var c' := ApplyRequest(c, sender, fromNid, req); c' == c || Delivers(c.h, c'.h, sender, req)
  {
    hide Register, DefaultDeliveries;
  }

  lemma DeliversKeeps(h: History, h': History, sender: Addr, req: CSRequest)
    requires DefaultDeliveries(h) && Delivers(h, h', sender, req)
    ensures DefaultDeliveries(h')
  {
    forall r: CSRequest, a | r.protocols == [] && OnlyBy(h', r, a) ensures h'.openings[r] <= h'.delivered[(a, r)] {
      assert OnlyBy(h, r, a);
      if r == req { assert (sender, r) in h'.delivered; }
    }
  }

  lemma SetDefaultKeepsDefaults(c: Chain, step: Step)
    requires DefaultAccounting(c) && step.SetDefault?
    ensures DefaultAccounting(Apply(c, step).0)
  {
  }

  // Results: one end per sequence number, and who confirmed it.

  /** The next sequence number is issued, with or without a rollback record. */
  ghost predicate Issues(c: Chain, c': Chain, issued: Issued) {
    var sn := c.st.sn + 1;
    && c'.st.sn == sn && c'.st.networkId == c.st.networkId && c'.st.successes == c.st.successes
    && c'.st.pendingResponses == c.st.pendingResponses && c'.h == c.h.(issued := c.h.issued[sn := issued])
    && issued.request.sn == sn && issued.request.from.nid == c.st.networkId
    && (|| c'.st.rollbacks == c.st.rollbacks
        || exists r: Rollback ::
             && c'.st.rollbacks == c.st.rollbacks[sn := r] && !r.enabled
             && r.protocols == issued.sources && r.to == issued.to
             && issued.request.msgType == CallWithRollback)
  }

  lemma SendIssues(c: Chain, step: Step)
    requires step.Send?
    ensures var c' := Apply(c, step).0;
      c' == c || Issues(c, c', Issued(IssuedRequest(c.st, step.sender, step.envelope, step.to), step.envelope.sources,
        step.to))
  {
  }

  lemma IssueKeepsRecords(c: Chain, c': Chain, issued: Issued)
    requires RecordsOk(c) && Issues(c, c', issued)
    ensures RecordsOk(c')
  {
  }

  lemma IssueKeepsOneEnd(c: Chain, c': Chain, issued: Issued)
    requires IssuedOk(c) && OneEnd(c) && Issues(c, c', issued)
    ensures OneEnd(c')
  {
  }

  lemma IssueKeepsVerdicts(c: Chain, c': Chain, issued: Issued)
    requires IssuedOk(c) && VerdictsOk(c) && Issues(c, c', issued)
    ensures VerdictsOk(c')
  {
    hide VerdictIs;
    forall n: nat, end | VerdictIs(c.h, n, end) ensures VerdictIs(c'.h, n, end) {
      IssueKeepsVerdict(c, c', issued, n, end);
    }
  }

  lemma IssueKeepsVerdict(c: Chain, c': Chain, issued: Issued, n: nat, end: ResponseCode)
    requires IssuedOk(c) && Issues(c, c', issued) && VerdictIs(c.h, n, end)
    ensures VerdictIs(c'.h, n, end)
  {
    assert Sub(c.h.issued, c'.h.issued);
    VerdictStays(c.h, c'.h, n, end);
  }

  /** What a step on the record of `sn` leaves alone. */
  ghost predicate FrameRecord(c: Chain, c': Chain, sn: nat) {
    && c'.st.sn == c.st.sn && c'.st.networkId == c.st.networkId && c'.h.issued == c.h.issued
    && c.h.results <= c'.h.results && c'.h.defaults == c.h.defaults
    && (forall n :: n in c.h.verdict && n != sn ==> n in c'.h.verdict && c'.h.verdict[n] == c.h.verdict[n])
  }

  /** The record leaves the storage and its end is written down. */
  ghost predicate RecordEnds(c: Chain, c': Chain, sn: nat, code: ResponseCode) {
    && FrameRecord(c, c', sn) && sn in c.st.rollbacks && c'.st.rollbacks == c.st.rollbacks - {sn}
    && c'.st.successes == (if code == Success then c.st.successes + {sn} else c.st.successes)
    && c'.h.succeeded == (if code == Success then c.h.succeeded + multiset{sn} else c.h.succeeded)
    && c'.h.rolledBack == (if code == Failure then c.h.rolledBack + multiset{sn} else c.h.rolledBack)
  }

  lemma EndKeepsOneEnd(c: Chain, c': Chain, sn: nat, code: ResponseCode)
    requires OneEnd(c) && RecordEnds(c, c', sn, code)
    ensures OneEnd(c')
  {
  }

  lemma EndKeepsVerdicts(c: Chain, c': Chain, sn: nat, code: ResponseCode)
    requires EndsOk(c) && RecordEnds(c, c', sn, code) && VerdictIs(c'.h, sn, code)
    ensures VerdictsOk(c')
  {
    hide VerdictIs;
    assert c.h.succeeded[sn] == 0 && c.h.rolledBack[sn] == 0;
    forall n: nat, end | n != sn && VerdictIs(c.h, n, end) ensures VerdictIs(c'.h, n, end) {
      OtherVerdictStays(c, c', sn, n, end);
    }
  }

  lemma OtherVerdictStays(c: Chain, c': Chain, sn: nat, n: nat, end: ResponseCode)
    requires FrameRecord(c, c', sn) && n != sn && VerdictIs(c.h, n, end)
    ensures VerdictIs(c'.h, n, end)
  {
    VerdictStays(c.h, c'.h, n, end);
  }

  lemma RecordKeepsRecords(c: Chain, c': Chain, sn: nat)
    requires RecordsOk(c) && FrameRecord(c, c', sn)
    requires Sub(c'.st.pendingResponses, c.st.pendingResponses)
    requires forall n :: n in c'.st.rollbacks ==>
      n in c.st.rollbacks && c'.st.rollbacks[n].(enabled := true) == c.st.rollbacks[n].(enabled := true)
    ensures RecordsOk(c')
  {
  }

  lemma RollbackKeepsResults(c: Chain, step: Step)
    requires RecordsOk(c) && EndsOk(c) && step.RunRollback?
    ensures RecordsOk(Apply(c, step).0) && EndsOk(Apply(c, step).0)
  {
    var c' := Apply(c, step).0;
    if ExecuteRollback(c.st, step.sn, step.dappOk).Ok? {
      EndKeepsOneEnd(c, c', step.sn, Failure);
      EndKeepsVerdicts(c, c', step.sn, Failure);
      RecordKeepsRecords(c, c', step.sn);
    }
  }

  /** A result is added to the pending list of its hash. */
  ghost predicate ResultPends(c: Chain, c': Chain, sender: Addr, res: CSResult) {
    && res.sn in c.st.rollbacks && |c.st.rollbacks[res.sn].protocols| > 1 && sender in c.st.rollbacks[res.sn].protocols
    && (var p := Register(Lookup(c.st.pendingResponses, Keccak(res)), sender);
        && |p| != |c.st.rollbacks[res.sn].protocols|
        && c'.st == c.st.(pendingResponses := c.st.pendingResponses[Keccak(res) := p]))
    && c'.h == c.h.(results := c.h.results + {(sender, res)})
  }

  /** Everyone needed has delivered the result, now that `sender` has. */
  ghost predicate ResultComplete(st: State, sender: Addr, res: CSResult) {
    && res.sn in st.rollbacks
    && (var rollback := st.rollbacks[res.sn];
        && ValidSource(st, sender, rollback.to.nid, rollback.protocols)
        && (|rollback.protocols| > 1 ==>
              |Register(Lookup(st.pendingResponses, Keccak(res)), sender)| == |rollback.protocols|))
  }

  lemma PendKeepsRecords(c: Chain, c': Chain, sender: Addr, res: CSResult)
    requires RecordsOk(c) && ResultPends(c, c', sender, res)
    ensures RecordsOk(c')
  {
    RegisterOk(Lookup(c.st.pendingResponses, Keccak(res)), sender, c.st.rollbacks[res.sn].protocols);
  }

  lemma PendKeepsEnds(c: Chain, c': Chain, sender: Addr, res: CSResult)
    requires EndsOk(c) && ResultPends(c, c', sender, res)
    ensures EndsOk(c')
  {
  }

  lemma CompleteIsVerdict(c: Chain, h': History, sender: Addr, res: CSResult)
    requires RecordsOk(c) && DefaultAccounting(c) && ResultComplete(c.st, sender, res)
    requires h'.issued == c.h.issued && h'.defaults == c.h.defaults && h'.results == c.h.results + {(sender, res)}
    ensures res.sn in h'.issued && AllDelivered(h', h'.issued[res.sn], res)
  {
    var protocols := c.st.rollbacks[res.sn].protocols;
    if |protocols| > 1 {
      RegisterOk(Lookup(c.st.pendingResponses, Keccak(res)), sender, protocols);
    }
  }

  // Proxy requests: ids, execution, openings.

  /** A proxy request appears under the next id. */
  ghost predicate ProxyOpens(c: Chain, c': Chain, from: Origin, proxy: ProxyRequest) {
    && c'.st.lastReqId == c.st.lastReqId + 1
    && c'.st.proxyRequests == c.st.proxyRequests[c'.st.lastReqId := proxy]
    && c'.h.origin == c.h.origin[c'.st.lastReqId := from]
    && c'.h.openings == (if from.FromRequest? then c.h.openings + multiset{from.request} else c.h.openings)
    && c'.h.commits == c.h.commits && c'.h.outcome == c.h.outcome
    && c'.h.issued == c.h.issued && c.h.results <= c'.h.results && c.h.defaults <= c'.h.defaults
  }

  lemma OpenKeepsOnce(c: Chain, c': Chain, from: Origin, proxy: ProxyRequest)
    requires IdsDense(c) && ExecutedOnce(c) && ExecutedAddressed(c.h) && ProxyOpens(c, c', from, proxy)
    ensures IdsDense(c') && ExecutedOnce(c') && ExecutedAddressed(c'.h)
  {
  }

  lemma OpenKeepsCounts(c: Chain, c': Chain, from: Origin, proxy: ProxyRequest)
    requires IdsDense(c) && OriginsCounted(c.h) && ProxyOpens(c, c', from, proxy)
    ensures OriginsCounted(c'.h)
  {
  }

  lemma OpenKeepsMatch(c: Chain, c': Chain, from: Origin, proxy: ProxyRequest)
    requires IdsDense(c) && ProxiesMatch(c) && ProxyOpens(c, c', from, proxy)
    requires ProxyOf(c'.h, from, proxy) && ReplyBacked(c'.h, from)
    ensures ProxiesMatch(c')
  {
  }

  lemma OpenKeepsOpenings(c: Chain, c': Chain, from: Origin, proxy: ProxyRequest)
    requires OpeningsOk(c) && ProxyOpens(c, c', from, proxy)
    requires ProxyOf(c'.h, from, proxy) && ReplyBacked(c'.h, from)
    ensures OpeningsOk(c')
  {
    OpenKeepsOnce(c, c', from, proxy);
    OpenKeepsCounts(c, c', from, proxy);
    OpenKeepsMatch(c, c', from, proxy);
  }

  lemma RequestOpens(c: Chain, sender: Addr, fromNid: Nid, req: CSRequest)
    ensures var c' := ApplyRequest(c, sender, fromNid, req);
      FrameProxies(c, c') || ProxyOpens(c, c', FromRequest(req), Proxy(req, req.protocols))
  {
  }

  lemma RequestKeepsOpenings(c: Chain, sender: Addr, fromNid: Nid, req: CSRequest)
    requires OpeningsOk(c)
    ensures OpeningsOk(ApplyRequest(c, sender, fromNid, req))
  {
    var c' := ApplyRequest(c, sender, fromNid, req);
    RequestOpens(c, sender, fromNid, req);
    if FrameProxies(c, c') {
      OpeningsFramed(c, c');
    } else {
      OpenKeepsOpenings(c, c', FromRequest(req), Proxy(req, req.protocols));
    }
  }

  ghost predicate ProxyCommits(c: Chain, c': Chain, id: nat, code: ResponseCode) {
    && id in c.st.proxyRequests && IsAddress(c.st.proxyRequests[id].to)
    && c'.st.lastReqId == c.st.lastReqId && c'.st.proxyRequests == c.st.proxyRequests - {id}
    && c'.h == c.h.(commits := c.h.commits + multiset{id}, outcome := c.h.outcome[id := code])
  }

  lemma CommitKeepsOnce(c: Chain, c': Chain, id: nat, code: ResponseCode)
    requires ExecutedOnce(c) && ProxyCommits(c, c', id, code)
    ensures ExecutedOnce(c')
  {
  }

  lemma CommitKeepsRest(c: Chain, c': Chain, id: nat, code: ResponseCode)
    requires IdsDense(c) && ProxiesMatch(c) && OriginsCounted(c.h) && ProxyCommits(c, c', id, code)
    ensures IdsDense(c') && ProxiesMatch(c') && OriginsCounted(c'.h)
  {
  }

  lemma CommitKeepsAddressed(c: Chain, c': Chain, id: nat, code: ResponseCode)
    requires ProxiesMatch(c) && ExecutedAddressed(c.h) && ProxyCommits(c, c', id, code)
    ensures ExecutedAddressed(c'.h)
  {
    assert ProxyOf(c.h, c.h.origin[id], c.st.proxyRequests[id]);
  }

  lemma ExecuteCommits(c: Chain, step: Step)
    requires step.Execute? && ExecuteCall(c.st, step.reqId, step.data, step.dappOk).Ok?
    ensures ProxyCommits(c, Apply(c, step).0, step.reqId, CodeOf(step.dappOk))
  {
  }

  lemma ExecuteKeepsOpenings(c: Chain, step: Step)
    requires OpeningsOk(c) && step.Execute?
    ensures OpeningsOk(Apply(c, step).0)
  {
    var c' := Apply(c, step).0;
    if ExecuteCall(c.st, step.reqId, step.data, step.dappOk).Ok? {
      ExecuteCommits(c, step);
      CommitKeepsOnce(c, c', step.reqId, CodeOf(step.dappOk));
      CommitKeepsRest(c, c', step.reqId, CodeOf(step.dappOk));
      CommitKeepsAddressed(c, c', step.reqId, CodeOf(step.dappOk));
    }
  }

  // A concluded result.

  /** The record is marked: its rollback may now be executed. */
  ghost predicate RecordEnabled(c: Chain, c': Chain, sn: nat) {
    && FrameRecord(c, c', sn) && sn in c.st.rollbacks
    && c'.st.rollbacks == c.st.rollbacks[sn := c.st.rollbacks[sn].(enabled := true)]
    && c'.st.successes == c.st.successes && c'.h.succeeded == c.h.succeeded && c'.h.rolledBack == c.h.rolledBack
  }

  lemma EnableKeepsEnds(c: Chain, c': Chain, sn: nat)
    requires EndsOk(c) && RecordEnabled(c, c', sn) && VerdictIs(c'.h, sn, Failure)
    ensures EndsOk(c')
  {
    hide VerdictIs;
    assert c.h.succeeded[sn] == 0 && c.h.rolledBack[sn] == 0;
    forall n: nat, end | n != sn && VerdictIs(c.h, n, end) ensures VerdictIs(c'.h, n, end) {
      OtherVerdictStays(c, c', sn, n, end);
    }
  }

  ghost predicate ResultConcludes(c: Chain, c': Chain, sender: Addr, res: CSResult) {
    && ResultComplete(c.st, sender, res)
    && Sub(c'.st.pendingResponses, c.st.pendingResponses)
    && c'.h.results == c.h.results + {(sender, res)} && c'.h.verdict == c.h.verdict[res.sn := res]
    && c'.h.agreed == c.h.agreed + {res}
    && (if res.code == Success then RecordEnds(c, c', res.sn, Success) else RecordEnabled(c, c', res.sn))
  }

  /** The storage just before a complete result is acted on: its pending list is gone. */
  function Settled(st: State, res: CSResult): State
    requires res.sn in st.rollbacks
  {
    if |st.rollbacks[res.sn].protocols| > 1 then st.(pendingResponses := st.pendingResponses - {Keccak(res)}) else st
  }

  lemma HandleResultCases(c: Chain, sender: Addr, res: CSResult)
    requires HandleResult(c.st, sender, res).Ok?
    ensures res.sn in c.st.rollbacks
    ensures var c' := ApplyResult(c, sender, res);
      || ResultPends(c, c', sender, res)
      || (ResultComplete(c.st, sender, res) && Conclude(Settled(c.st, res), c.st.rollbacks[res.sn], res) == Ok(c'.st))
  {
  }

  lemma ConcludedState(st: State, sender: Addr, res: CSResult)
    requires ResultComplete(st, sender, res)
    ensures HandleResult(st, sender, res) == Conclude(Settled(st, res), st.rollbacks[res.sn], res)
  {
  }

  lemma ConcludedFlags(st: State, res: CSResult)
    requires res.sn in st.rollbacks && Conclude(Settled(st, res), st.rollbacks[res.sn], res).Ok?
    ensures var st' := Conclude(Settled(st, res), st.rollbacks[res.sn], res).value;
      Concluded(st, st', res) && (res.sn !in st'.rollbacks <==> res.code == Success)
  {
  }

  lemma ConcludedHistory(c: Chain, sender: Addr, res: CSResult)
    requires ResultComplete(c.st, sender, res) && Conclude(Settled(c.st, res), c.st.rollbacks[res.sn], res).Ok?
    ensures var c' := ApplyResult(c, sender, res);
      && c'.st == Conclude(Settled(c.st, res), c.st.rollbacks[res.sn], res).value
      && (var h := c.h.(results := c.h.results + {(sender, res)}, verdict := c.h.verdict[res.sn := res],
                        agreed := c.h.agreed + {res},
                        succeeded := if res.code == Success then c.h.succeeded + multiset{res.sn} else c.h.succeeded);
          c'.h == NoteOpened(h, c.st, c'.st, FromReply(res)))
  {
    ConcludedState(c.st, sender, res);
    ConcludedFlags(c.st, res);
  }

  lemma ResultEffect(c: Chain, sender: Addr, res: CSResult)
    ensures var c' := ApplyResult(c, sender, res);
      c' == c || ResultPends(c, c', sender, res) || ResultConcludes(c, c', sender, res)
  {
    hide HandleResult, NoteResult, ResultPends, ResultComplete;
    if HandleResult(c.st, sender, res).Ok? && !ResultPends(c, ApplyResult(c, sender, res), sender, res) {
      HandleResultCases(c, sender, res);
      ConcludedHistory(c, sender, res);
    }
  }

  lemma ConcludeKeepsResults(c: Chain, c': Chain, sender: Addr, res: CSResult)
    requires RecordsOk(c) && EndsOk(c) && DefaultAccounting(c) && ResultConcludes(c, c', sender, res)
    ensures RecordsOk(c') && EndsOk(c')
  {
    CompleteIsVerdict(c, c'.h, sender, res);
    if res.code == Success {
      EndKeepsOneEnd(c, c', res.sn, Success);
      EndKeepsVerdicts(c, c', res.sn, Success);
    } else {
      EnableKeepsEnds(c, c', res.sn);
    }
    RecordKeepsRecords(c, c', res.sn);
  }

  lemma ResultKeepsResults(c: Chain, sender: Addr, res: CSResult)
    requires RecordsOk(c) && EndsOk(c) && DefaultAccounting(c)
    ensures var c' := ApplyResult(c, sender, res); RecordsOk(c') && EndsOk(c')
  {
    var c' := ApplyResult(c, sender, res);
    ResultEffect(c, sender, res);
    if ResultPends(c, c', sender, res) {
      PendKeepsRecords(c, c', sender, res);
      PendKeepsEnds(c, c', sender, res);
    } else if c' != c {
      ConcludeKeepsResults(c, c', sender, res);
    }
  }

  lemma ResultOpens(c: Chain, sender: Addr, res: CSResult)
    ensures var c' := ApplyResult(c, sender, res);
      || FrameProxies(c, c')
      || (&& res.message.Reply? && ResultComplete(c.st, sender, res)
          && ProxyOpens(c, c', FromReply(res), Proxy(res.message.request, c.st.rollbacks[res.sn].protocols))
          && res.message.request.from.nid == c.st.rollbacks[res.sn].to.nid
          && c'.h.defaults == c.h.defaults && c'.h.results == c.h.results + {(sender, res)})
  {
    if HandleResult(c.st, sender, res).Ok? && !ResultPends(c, ApplyResult(c, sender, res), sender, res) {
      HandleResultCases(c, sender, res);
      ConcludedHistory(c, sender, res);
    }
  }

  lemma ResultKeepsOpenings(c: Chain, sender: Addr, res: CSResult)
    requires OpeningsOk(c) && RecordsOk(c) && DefaultAccounting(c)
    ensures OpeningsOk(ApplyResult(c, sender, res))
  {
    var c' := ApplyResult(c, sender, res);
    ResultOpens(c, sender, res);
    if FrameProxies(c, c') {
      OpeningsFramed(c, c');
    } else {
      CompleteIsVerdict(c, c'.h, sender, res);
      OpenKeepsOpenings(c, c', FromReply(res), Proxy(res.message.request, c.st.rollbacks[res.sn].protocols));
    }
  }

  // -------------------------------------------------------------- every run

  lemma DeliveryKeeps(c: Chain, step: Step)
    requires Inv(c) && step.Deliver? && step.msg.RequestMessage?
    ensures Inv(Apply(c, step).0)
  {
    var req := step.msg.request;
    var c' := ApplyRequest(c, step.sender, step.fromNid, req);
    RequestSteps(c, step);
    RequestKeepsQuorum(c, step.sender, step.fromNid, req);
    RequestKeepsDefaults(c, step.sender, step.fromNid, req);
    RequestKeepsOpenings(c, step.sender, step.fromNid, req);
    RequestFramesResults(c, step.sender, step.fromNid, req);
    ResultsFramed(c, c');
  }

  lemma ResponseKeeps(c: Chain, sender: Addr, res: CSResult)
    requires Inv(c)
    ensures Inv(ApplyResult(c, sender, res))
  {
    var c' := ApplyResult(c, sender, res);
    ResultFrames(c, sender, res);
    ResultFramesDefaults(c, sender, res);
    RequestsFramed(c, c');
    DefaultsFramed(c, c');
    ResultKeepsResults(c, sender, res);
    ResultKeepsOpenings(c, sender, res);
  }

  lemma SendKeeps(c: Chain, step: Step)
    requires Inv(c) && step.Send?
    ensures Inv(Apply(c, step).0)
  {
    var c' := Apply(c, step).0;
    if c' != c {
      var issued := Issued(IssuedRequest(c.st, step.sender, step.envelope, step.to), step.envelope.sources, step.to);
      SendIssues(c, step);
      SendFrames(c, step);
      RequestsFramed(c, c');
      DefaultsFramed(c, c');
      OpeningsFramed(c, c');
      IssueKeepsRecords(c, c', issued);
      IssueKeepsOneEnd(c, c', issued);
      IssueKeepsVerdicts(c, c', issued);
    }
  }

  lemma ExecutionKeeps(c: Chain, step: Step)
    requires Inv(c) && step.Execute?
    ensures Inv(Apply(c, step).0)
  {
    var c' := Apply(c, step).0;
    ExecuteFrames(c, step);
    RequestsFramed(c, c');
    DefaultsFramed(c, c');
    ResultsFramed(c, c');
    ExecuteKeepsOpenings(c, step);
  }

  lemma RollbackKeeps(c: Chain, step: Step)
    requires Inv(c) && step.RunRollback?
    ensures Inv(Apply(c, step).0)
  {
    var c' := Apply(c, step).0;
    RollbackFrames(c, step);
    RequestsFramed(c, c');
    DefaultsFramed(c, c');
    OpeningsFramed(c, c');
    RollbackKeepsResults(c, step);
  }

  lemma OutsideKeeps(c: Chain, step: Step)
    requires Inv(c) && (step.Vanish? || step.SetDefault?)
    ensures Inv(Apply(c, step).0)
  {
    var c' := Apply(c, step).0;
    if step.Vanish? {
      VanishFrames(c, step);
      DefaultsFramed(c, c');
    } else {
      SetDefaultFrames(c, step);
      SetDefaultKeepsDefaults(c, step);
    }
    RequestsFramed(c, c');
    ResultsFramed(c, c');
    OpeningsFramed(c, c');
  }

  lemma StepKeeps(c: Chain, step: Step)
    requires Inv(c)
    ensures Inv(Apply(c, step).0)
  {
    match step
    case Send(_, _, _, _, _) => SendKeeps(c, step);
    case Deliver(sender, _, msg) =>
      if msg.RequestMessage? {
        DeliveryKeeps(c, step);
      } else {
        ResultSteps(c, step);
        ResponseKeeps(c, sender, msg.result);
      }
    case Revert(sender, sn) =>
      ResultSteps(c, step);
      ResponseKeeps(c, sender, RevertResult(sn));
    case Execute(_, _, _) => ExecutionKeeps(c, step);
    case RunRollback(_, _) => RollbackKeeps(c, step);
    case Vanish(_) => OutsideKeeps(c, step);
    case SetDefault(_, _) => OutsideKeeps(c, step);
  }

  /** Every reachable state satisfies every invariant. */
  lemma {:induction false} RunKeeps(networkId: Nid, steps: seq<Step>)
    ensures Inv(Run(Start(networkId), steps))
  {
    if steps != [] {
      RunKeeps(networkId, steps[..|steps| - 1]);
      StepKeeps(Run(Start(networkId), steps[..|steps| - 1]), steps[|steps| - 1]);
    }
  }

  // ------------------------------------------------------------- main results

  /** Quorum: between steps no pending list is complete, and every proxy request opened for a
      payload, plus one while a protocol is pending, is covered by that protocol's own deliveries. */
  lemma QuorumAccounted(networkId: Nid, steps: seq<Step>, r: CSRequest, a: Addr)
    requires |r.protocols| > 1 && a in r.protocols
    ensures var c := Run(Start(networkId), steps);
      var pending := Lookup(c.st.pendingRequests, Keccak(r));
      && NoDup(pending) && (forall p :: p in pending ==> p in r.protocols) && |pending| < |r.protocols|
      && c.h.openings[r] + One(a in pending) <= c.h.delivered[(a, r)]
  {
    RunKeeps(networkId, steps);
  }

  /** Each sequence number ends at most once: one executed rollback or one recorded success. An
      enabled or executed rollback, and a recorded success, is backed by one and the same result
      of the right kind from every connection of the record. */
  lemma RollbackLifecycle(networkId: Nid, steps: seq<Step>, sn: nat)
    ensures var c := Run(Start(networkId), steps);
      && c.h.rolledBack[sn] + c.h.succeeded[sn] <= 1
      && (sn in c.st.successes <==> c.h.succeeded[sn] == 1)
      && (c.h.rolledBack[sn] == 1 || (sn in c.st.rollbacks && c.st.rollbacks[sn].enabled) ==>
            VerdictIs(c.h, sn, Failure))
      && (c.h.succeeded[sn] == 1 ==> VerdictIs(c.h, sn, Success))
      && (sn in c.st.rollbacks ==> c.h.rolledBack[sn] + c.h.succeeded[sn] == 0)
  {
    RunKeeps(networkId, steps);
  }

  ghost predicate Grows(h: History, h': History) {
    && Sub(h.issued, h'.issued) && Sub(h.origin, h'.origin) && Sub(h.outcome, h'.outcome)
    && h.commits <= h'.commits && h.rolledBack <= h'.rolledBack && h.succeeded <= h'.succeeded
  }

  lemma ResultGrows(c: Chain, sender: Addr, res: CSResult)
    requires IdsDense(c)
    ensures Grows(c.h, ApplyResult(c, sender, res).h)
  {
    var c' := ApplyResult(c, sender, res);
    ResultEffect(c, sender, res);
    ResultOpens(c, sender, res);
    hide ApplyResult;
    assert Sub(c.h.issued, c'.h.issued);
    assert Sub(c.h.origin, c'.h.origin);
    assert c'.h.outcome == c.h.outcome && c'.h.commits == c.h.commits;
  }

  lemma RequestGrows(c: Chain, sender: Addr, fromNid: Nid, req: CSRequest)
    requires IdsDense(c)
    ensures Grows(c.h, ApplyRequest(c, sender, fromNid, req).h)
  {
    RequestOpens(c, sender, fromNid, req);
    RequestFramesResults(c, sender, fromNid, req);
    hide ApplyRequest;
  }

  lemma ExecuteGrows(c: Chain, step: Step)
    requires ExecutedOnce(c) && step.Execute?
    ensures Grows(c.h, Apply(c, step).0.h)
  {
    if ExecuteCall(c.st, step.reqId, step.data, step.dappOk).Ok? {
      ExecuteCommits(c, step);
    }
  }

  lemma SendGrows(c: Chain, step: Step)
    requires IssuedOk(c) && step.Send?
    ensures Grows(c.h, Apply(c, step).0.h)
  {
    SendIssues(c, step);
  }

  lemma OtherGrows(c: Chain, step: Step)
    requires step.RunRollback? || step.Vanish? || step.SetDefault?
    ensures Grows(c.h, Apply(c, step).0.h)
  {
    var h' := Apply(c, step).0.h;
    assert h'.issued == c.h.issued && h'.origin == c.h.origin && h'.outcome == c.h.outcome && h'.commits == c.h.commits;
  }

  lemma StepGrows(c: Chain, step: Step)
    requires Inv(c)
    ensures Grows(c.h, Apply(c, step).0.h)
  {
    if step.Deliver? && step.msg.RequestMessage? {
      RequestSteps(c, step);
      RequestGrows(c, step.sender, step.fromNid, step.msg.request);
    } else if step.Deliver? || step.Revert? {
      ResultSteps(c, step);
      ResultGrows(c, step.sender, if step.Revert? then RevertResult(step.sn) else step.msg.result);
    } else if step.Execute? {
      ExecuteGrows(c, step);
    } else if step.Send? {
      SendGrows(c, step);
    } else {
      OtherGrows(c, step);
    }
  }

  lemma GrowsOn(h1: History, h2: History, h3: History)
    requires Grows(h1, h2) && Grows(h2, h3)
    ensures Grows(h1, h3)
  {
  }

  lemma LastStepGrows(networkId: Nid, steps: seq<Step>)
    requires steps != []
    ensures Grows(Run(Start(networkId), steps[..|steps| - 1]).h, Run(Start(networkId), steps).h)
  {
    RunKeeps(networkId, steps[..|steps| - 1]);
    StepGrows(Run(Start(networkId), steps[..|steps| - 1]), steps[|steps| - 1]);
  }

  /** A later state of the same run: nothing issued, opened or executed is ever taken back. */
  lemma {:induction false} RunGrows(networkId: Nid, steps: seq<Step>, more: seq<Step>)
    ensures Grows(Run(Start(networkId), steps).h, Run(Start(networkId), steps + more).h)
  {
    if more == [] {
      assert steps + more == steps;
    } else {
      var front := more[..|more| - 1];
      RunGrows(networkId, steps, front);
      assert (steps + more)[..|steps + more| - 1] == steps + front;
      LastStepGrows(networkId, steps + more);
      GrowsOn(Run(Start(networkId), steps).h, Run(Start(networkId), steps + front).h,
        Run(Start(networkId), steps + more).h);
    }
  }

  /** Sequence numbers are never reissued: a number issued at some point of a run keeps its request
      ever after, and a call sent later gets a number that was not issued before. */
  lemma SequenceNumbersFresh(networkId: Nid, steps: seq<Step>, more: seq<Step>, sn: nat, step: Step)
    requires step.Send? && sn in Run(Start(networkId), steps).h.issued
    ensures var c, c' := Run(Start(networkId), steps), Run(Start(networkId), steps + more);
      && sn in c'.h.issued && c'.h.issued[sn] == c.h.issued[sn]
      && (var d := Apply(c', step).0; d != c' ==> d.st.sn !in c'.h.issued && d.st.sn in d.h.issued)
  {
    var c' := Run(Start(networkId), steps + more);
    RunGrows(networkId, steps, more);
    RunKeeps(networkId, steps + more);
    SendIssues(c', step);
  }

  /** At-most-once execution: an id executed at some point of a run was executed exactly once, and
      at every later point executing it again fails and changes nothing. */
  lemma ExecutedAtMostOnce(networkId: Nid, steps: seq<Step>, more: seq<Step>, id: nat, data: bytes, dappOk: bool)
    requires id in Run(Start(networkId), steps).h.commits
    ensures var c, c' := Run(Start(networkId), steps), Run(Start(networkId), steps + more);
      && c.h.commits[id] == 1 && c'.h.commits[id] == 1
      && id in c.h.outcome && id in c'.h.outcome && c'.h.outcome[id] == c.h.outcome[id]
      && ExecuteCall(c'.st, id, data, dappOk) == Err(InvalidRequestId)
  {
    RunKeeps(networkId, steps);
    RunKeeps(networkId, steps + more);
    RunGrows(networkId, steps, more);
  }

  // ----------------------------------------------------- the record kept for a call

  /** No step writes a record except for a new sequence number or to enable it. */
  ghost predicate RecordSurvives(st: State, st': State, sn: nat) {
    && st.sn <= st'.sn
    && (sn in st'.rollbacks ==>
          sn in st.rollbacks && st'.rollbacks[sn].(enabled := false) == st.rollbacks[sn].(enabled := false))
  }

  lemma ResultSurvives(c: Chain, sender: Addr, res: CSResult, sn: nat)
    ensures RecordSurvives(c.st, ApplyResult(c, sender, res).st, sn)
  {
    hide ApplyResult;
    ResultEffect(c, sender, res);
  }

  lemma StepSurvives(c: Chain, step: Step, sn: nat)
    requires sn <= c.st.sn
    ensures RecordSurvives(c.st, Apply(c, step).0.st, sn)
  {
    hide Apply;
    match step
    case Send(_, _, _, _, _) => SendIssues(c, step);
    case Deliver(sender, fromNid, msg) =>
      if msg.RequestMessage? {
        RequestSteps(c, step);
        RequestFramesResults(c, sender, fromNid, msg.request);
      } else {
        ResultSteps(c, step);
        ResultSurvives(c, sender, msg.result, sn);
      }
    case Revert(sender, n) =>
      ResultSteps(c, step);
      ResultSurvives(c, sender, RevertResult(n), sn);
    case Execute(_, _, _) => ExecuteFrames(c, step);
    case RunRollback(_, _) => RollbackSurvives(c, step, sn);
    case Vanish(_) => VanishFrames(c, step);
    case SetDefault(_, _) => SetDefaultFrames(c, step);
  }

  lemma RollbackSurvives(c: Chain, step: Step, sn: nat)
    requires step.RunRollback?
    ensures RecordSurvives(c.st, Apply(c, step).0.st, sn)
  {
    hide SendCall, HandleRequest, HandleReply, HandleResult, HandleMessage, ExecuteCall;
  }

  lemma {:induction false} RunSurvives(c: Chain, steps: seq<Step>, sn: nat)
    requires sn <= c.st.sn
    ensures RecordSurvives(c.st, Run(c, steps).st, sn)
    decreases |steps|
  {
    hide Apply;
    if steps != [] {
      RunSurvives(c, steps[..|steps| - 1], sn);
      StepSurvives(Run(c, steps[..|steps| - 1]), steps[|steps| - 1], sn);
    }
  }

  /** A rollback delivers what its caller asked for: from the send on, at every later point of any
      run, a record under the call's number names the caller, the destination, the connections and
      the rollback data of that very send; only its enabled flag may differ. */
  lemma RollbackAsSent(networkId: Nid, before: seq<Step>, call: Step, after: seq<Step>)
    requires call.Send? && call.envelope.message.CallMessageWithRollback?
    requires var st := Run(Start(networkId), before).st;
      SendCall(st, call.sender, call.isContract, call.envelope, call.to, call.encodedSize).Ok?
    ensures var c := Run(Start(networkId), before);
      var sn := c.st.sn + 1;
      var later := Run(Apply(c, call).0, after).st;
      && sn in Apply(c, call).0.st.rollbacks
      && (sn in later.rollbacks ==>
            later.rollbacks[sn].(enabled := false) ==
              Rollback(call.sender, call.to, call.envelope.sources, call.envelope.message.rollback, false))
  {
    var c := Run(Start(networkId), before);
    RunSurvives(Apply(c, call).0, after, c.st.sn + 1);
  }
}
