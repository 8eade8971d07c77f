/**
 Calls and replies of the CosmWasm contract. Executing a call hands control to the dapp, which
 may call the contract again, any number of times and to any depth, before it succeeds or
 fails; so may the connections a message is sent through. A call that fails leaves the storage
 as it was, and whoever made it goes on or fails as well. While a dapp call is in flight, one
 message it sends back to where the call came from is kept as the reply. Only a call with
 rollback is answered, and only an answer carries the reply.
 */
module CwReply {
  import opened Bytes
  import opened Wrappers
  import opened XCall
  import Runs = XCallRuns

  /** A message the contract accepted: to which network and over which connections, whether the
      contract took it for a reply, the call in flight at that moment, and whether the reply's place
      was still free. */
  datatype Offer = Offer(
    request: CSRequest, to: Nid, sources: seq<Addr>, isReply: bool, during: Option<ProxyRequest>, free: bool)

  /** A request that was executed. */
  datatype Executed = Executed(request: ProxyRequest, code: ResponseCode)

  /** An answer handed to connections; `id` is the request it answers. */
  datatype Response = Response(id: nat, sn: nat, code: ResponseCode, reply: Option<CSRequest>)

  /** Bookkeeping, never read by a call. */
  datatype Book = Book(
    offers: map<nat, Offer>,        // accepted messages by sequence number
    handed: multiset<nat>,          // those handed to connections
    dropped: multiset<nat>,         // those kept as a reply and then thrown away
    executed: map<nat, Executed>,   // by request id
    commits: multiset<nat>,         // executed request ids
    responses: seq<Response>)

  datatype Service = Service(
    networkId: Nid,
    sn: nat,
    lastReqId: nat,
    proxyRequests: map<nat, ProxyRequest>,
    inFlight: Option<nat>,          // callback data of the call being executed
    callReply: Option<CSRequest>,
    book: Book)

  function Idle(nid: Nid): Service {
    Service(nid, 0, 0, map[], None, None, Book(map[], multiset{}, multiset{}, map[], multiset{}, []))
  }

  /** Calls of the contract with everything that happens inside them. `ok` flags say whether the
      other checks pass, whether the called dapp succeeds, whether every connection succeeds. */
  datatype Tx =
    | Send(sender: Addr, to: NetworkAddress, message: AnyMessage, sources: seq<Addr>, destinations: seq<Addr>,
           checksOk: bool, connections: seq<Tx>, connectionsOk: bool)
    | Receive(request: CSRequest)
    | Execute(reqId: nat, data: bytes, dapp: seq<Tx>, dappOk: bool, connections: seq<Tx>, connectionsOk: bool)
    | Other(inside: seq<Tx>, ok: bool)

  /** Same length and nothing missing. */
  predicate AreEqual(protocols: seq<Addr>, sources: seq<Addr>) {
    |protocols| == |sources| && forall p :: p in protocols ==> p in sources
  }

  /** The request of the call in flight. */
  function Current(st: Service): Option<ProxyRequest> {
    if st.inFlight.Some? && st.inFlight.value in st.proxyRequests then Some(st.proxyRequests[st.inFlight.value])
      else None
  }

  predicate IsReply(st: Service, to: Nid, sources: seq<Addr>) {
    && st.callReply.None? && Current(st).Some?
    && Current(st).value.from.nid == to && AreEqual(Current(st).value.protocols, sources)
  }

  function OfferOf(st: Service, tx: Tx): Offer
    requires tx.Send?
  {
    var from := NetworkAddress(st.networkId, tx.sender);
    var request := CSRequest(from, tx.to.account, st.sn + 1, tx.message.Type(), tx.message.data, tx.destinations);
    Offer(request, tx.to.nid, tx.sources, IsReply(st, tx.to.nid, tx.sources), Current(st),
      st.callReply.None?)
  }

  /** Kept as the reply instead of being sent. */
  predicate Kept(offer: Offer) { offer.isReply && !offer.request.msgType.CallWithRollback? }

  /** A message is accepted: a number is issued, and the message is kept or goes to connections. */
  function Accept(st: Service, offer: Offer): Service {
    var n := st.sn + 1;
    var book := st.book.(offers := st.book.offers[n := offer]);
    if Kept(offer) then st.(sn := n, callReply := Some(offer.request), book := book)
    else st.(sn := n, book := book.(handed := book.handed + multiset{n}))
  }

  function Arrive(st: Service, request: CSRequest): Service {
    var id := st.lastReqId + 1;
    st.(lastReqId := id, proxyRequests := st.proxyRequests[id := Proxy(request, request.protocols)])
  }

  /** The reply handler: the slots are emptied and the request is used up. A call with rollback is
      answered, with the reply if it succeeded; no other call is. A call that may be retried fails
      as a whole. */
  function Answer(st: Service, dappOk: bool): Option<Service> {
    if Current(st).None? then None else
    var id, request := st.inFlight.value, Current(st).value;
    if !dappOk && request.msgType.CallPersisted? then None else
    var code := CodeOf(dappOk);
    var carries := dappOk && request.msgType.CallWithRollback?;
    var book := st.book.(
      executed := st.book.executed[id := Executed(request, code)],
      commits := st.book.commits + multiset{id},
      dropped := if st.callReply.Some? && !carries then st.book.dropped + multiset{st.callReply.value.sn}
        else st.book.dropped,
      responses := if request.msgType.CallWithRollback?
                   then st.book.responses + [Response(id, request.sn, code, if carries then st.callReply else None)]
                   else st.book.responses);
    Some(st.(inFlight := None, proxyRequests := st.proxyRequests - {id}, callReply := None, book := book))
  }

  /** The storage after a call, or nothing when the call fails. */
  function Exec(st: Service, tx: Tx): Option<Service>
    decreases tx, 0
  {
    match tx
    case Send(sender, to, message, sources, destinations, checksOk, connections, connectionsOk) =>
      if !checksOk then None else
      var offer := OfferOf(st, tx);
      if Kept(offer) then Some(Accept(st, offer))
      else if !connectionsOk then None
      else Some(ExecAll(Accept(st, offer), connections))
    case Receive(request) => Some(Arrive(st, request))
    case Execute(reqId, data, dapp, dappOk, connections, connectionsOk) =>
      if reqId !in st.proxyRequests || Keccak(data) != st.proxyRequests[reqId].data || st.inFlight.Some? then None else
      var st1 := st.(inFlight := Some(reqId));
      var st2 := if dappOk then ExecAll(st1, dapp) else st1;
      var answered := Answer(st2, dappOk);
      if answered.None? then None
      else if !st.proxyRequests[reqId].msgType.CallWithRollback? then answered
      else if !connectionsOk then None
      else Some(ExecAll(answered.value, connections))
    case Other(inside, ok) =>
      if ok then Some(ExecAll(st, inside)) else None
  }

  /** Calls one after the other; a failed one leaves no trace. */
  function ExecAll(st: Service, txs: seq<Tx>): Service
    decreases txs, 1
  {
    if txs == [] then st else
    var st1 := ExecAll(st, txs[..|txs| - 1]);
    var r := Exec(st1, txs[|txs| - 1]);
    if r.Some? then r.value else st1
  }

  // ------------------------------------------------------------------ invariants

  /** A reply only during a call; the call's request is still there. */
  ghost predicate SlotsOk(st: Service) {
    && (st.inFlight.Some? ==> st.inFlight.value in st.proxyRequests)
    && (st.callReply.Some? ==> st.inFlight.Some?)
  }

  /** Request ids: handed out in order, each waiting or executed once or neither. */
  ghost predicate IdsOk(st: Service) {
    && (forall id: nat ::
          st.book.commits[id] + (if id in st.proxyRequests then 1 else 0) <= if 1 <= id <= st.lastReqId then 1 else 0)
    && (forall id: nat :: id in st.book.executed <==> st.book.commits[id] > 0)
  }

  /** The numbers of the replies that answers carry. */
  function Carried(responses: seq<Response>): multiset<nat>
    decreases |responses|
  {
    if responses == [] then multiset{} else
    var last := responses[|responses| - 1];
    Carried(responses[..|responses| - 1]) + if last.reply.Some? then multiset{last.reply.value.sn} else multiset{}
  }

  function InSlot(st: Service): multiset<nat> {
    if st.callReply.Some? then multiset{st.callReply.value.sn} else multiset{}
  }

  /** Every number issued is in one place: handed over, carried, dropped or in the slot. */
  ghost predicate PlacesOk(st: Service) {
    && (forall n: nat :: n in st.book.offers <==> 1 <= n <= st.sn)
    && (forall n: nat ::
          st.book.handed[n] + Carried(st.book.responses)[n] + st.book.dropped[n] + InSlot(st)[n] == if 1 <= n <= st.sn
            then 1 else 0)
  }

  /** An accepted message that was kept while `during` was in flight. */
  ghost predicate KeptIn(st: Service, n: nat, during: ProxyRequest) {
    && n in st.book.offers && Kept(st.book.offers[n]) && st.book.offers[n].during == Some(during)
  }

  /** Which place it is in, and why. */
  ghost predicate ReasonsOk(st: Service) {
    && (forall n: nat :: n in st.book.handed ==> n in st.book.offers && !Kept(st.book.offers[n]))
    && (forall n: nat :: n in st.book.dropped ==>
          && n in st.book.offers && Kept(st.book.offers[n])
          && st.book.offers[n].during.Some? && !st.book.offers[n].during.value.msgType.CallWithRollback?)
    && (st.callReply.Some? ==>
          var n := st.callReply.value.sn;
          n in st.book.offers && st.book.offers[n].request == st.callReply.value
          && Current(st).Some? && KeptIn(st, n, Current(st).value))
  }

  /** A message back to where the call in flight came from, over as many connections as it came in over,
      those among them, and the first such message. */
  predicate SentBack(o: Offer) {
    && o.during.Some? && o.free && o.to == o.during.value.from.nid
    && |o.sources| == |o.during.value.protocols|
    && forall i :: 0 <= i < |o.during.value.protocols| ==> o.during.value.protocols[i] in o.sources
  }

  /** Offers are recorded as they were made; replies are the messages sent back, and no others. */
  ghost predicate OffersOk(st: Service) {
    forall n :: n in st.book.offers ==>
      var o := st.book.offers[n];
      && o.request.sn == n && o.request.from.nid == st.networkId
      && (o.isReply <==> SentBack(o))
  }

  /** Answer `i` is the answer to an executed call with rollback; the reply it carries was kept
      during that very call, which succeeded. */
  ghost predicate ResponseOk(st: Service, a: Response) {
    && a.id in st.book.executed && st.book.executed[a.id].request.msgType.CallWithRollback?
    && a.sn == st.book.executed[a.id].request.sn && a.code == st.book.executed[a.id].code
    && (a.reply.Some? ==>
          var n := a.reply.value.sn;
          && a.code == Success && KeptIn(st, n, st.book.executed[a.id].request)
          && st.book.offers[n].request == a.reply.value)
  }

  /** Executed calls with rollback have one answer each. */
  ghost predicate AnswersOk(st: Service) {
    && (forall i :: 0 <= i < |st.book.responses| ==> ResponseOk(st, st.book.responses[i]))
    && (forall i, j :: 0 <= i < j < |st.book.responses| ==> st.book.responses[i].id != st.book.responses[j].id)
    && (forall id :: id in st.book.executed && st.book.executed[id].request.msgType.CallWithRollback? ==>
          exists i :: 0 <= i < |st.book.responses| && st.book.responses[i].id == id)
  }

  ghost predicate Inv(st: Service) {
    SlotsOk(st) && IdsOk(st) && PlacesOk(st) && ReasonsOk(st) && OffersOk(st) && AnswersOk(st)
  }

  /** The call in flight stays in flight and keeps its request; nothing executed, answered or
      accepted is forgotten. */
  ghost predicate Keeps(st: Service, st': Service) {
    && st'.inFlight == st.inFlight && st'.networkId == st.networkId
    && (Current(st).Some? ==> Current(st') == Current(st))
    && st.book.commits <= st'.book.commits && st.lastReqId <= st'.lastReqId && st.sn <= st'.sn
    && Runs.Sub(st.book.executed, st'.book.executed) && st.book.responses <= st'.book.responses
    && Runs.Sub(st.book.offers, st'.book.offers)
  }

  lemma KeepsOn(a: Service, b: Service, c: Service)
    requires Keeps(a, b) && Keeps(b, c)
    ensures Keeps(a, c)
  {
  }

  // A message is accepted.

  lemma AcceptKeeps(st: Service, tx: Tx)
    requires Inv(st) && tx.Send?
    ensures var st' := Accept(st, OfferOf(st, tx)); Inv(st') && Keeps(st, st')
  {
    hide PlacesOk, ReasonsOk, AnswersOk, AreEqual, SentBack;
    var offer := OfferOf(st, tx);
    ReplyIsSentBack(st, tx);
    AcceptKeepsPlaces(st, offer);
    AcceptKeepsReasons(st, offer);
    AcceptKeepsAnswers(st, offer);
    AcceptIsNew(st, offer);
  }

  lemma ReplyIsSentBack(st: Service, tx: Tx)
    requires tx.Send?
    ensures OfferOf(st, tx).isReply <==> SentBack(OfferOf(st, tx))
  {
    var o := OfferOf(st, tx);
    if o.during.Some? {
      var protocols := o.during.value.protocols;
      assert (forall p :: p in protocols ==> p in o.sources) <==>
        (forall i :: 0 <= i < |protocols| ==> protocols[i] in o.sources);
    }
  }

  lemma AcceptIsNew(st: Service, offer: Offer)
    requires PlacesOk(st)
    ensures var st' := Accept(st, offer);
      st.sn + 1 !in st.book.offers && Current(st') == Current(st) && Runs.Sub(st.book.offers, st'.book.offers)
  {
    hide Carried, Kept;
  }

  lemma AcceptKeepsPlaces(st: Service, offer: Offer)
    requires PlacesOk(st) && offer.request.sn == st.sn + 1 && (Kept(offer) ==> st.callReply.None?)
    ensures PlacesOk(Accept(st, offer))
  {
    hide Carried;
  }

  lemma AcceptKeepsReasons(st: Service, offer: Offer)
    requires PlacesOk(st) && ReasonsOk(st) && offer.request.sn == st.sn + 1
    requires Kept(offer) ==> st.callReply.None? && Current(st).Some? && offer.during == Current(st)
    ensures ReasonsOk(Accept(st, offer))
  {
    hide PlacesOk, Kept;
    AcceptIsNew(st, offer);
    var st' := Accept(st, offer);
    forall n: nat | n in st'.book.handed && n != st.sn + 1 ensures n in st.book.handed { }
    assert st'.book.dropped == st.book.dropped;
  }

  lemma AcceptKeepsAnswers(st: Service, offer: Offer)
    requires PlacesOk(st) && AnswersOk(st)
    ensures AnswersOk(Accept(st, offer))
  {
    hide PlacesOk, Kept;
    AcceptIsNew(st, offer);
    var st' := Accept(st, offer);
    forall i | 0 <= i < |st.book.responses| ensures ResponseOk(st', st.book.responses[i]) {
      assert ResponseOk(st, st.book.responses[i]);
    }
  }

  // A request arrives; a call begins.

  /** Steps that leave the numbers and the book alone. */
  ghost predicate SameBook(st: Service, st': Service) {
    st'.networkId == st.networkId && st'.sn == st.sn && st'.callReply == st.callReply && st'.book == st.book
  }

  lemma SameAnswers(st: Service, st': Service)
    requires AnswersOk(st) && SameBook(st, st')
    ensures AnswersOk(st')
  {
    hide Kept;
    forall i | 0 <= i < |st.book.responses| ensures ResponseOk(st', st.book.responses[i]) {
      assert ResponseOk(st, st.book.responses[i]);
    }
  }

  lemma SamePlaces(st: Service, st': Service)
    requires PlacesOk(st) && OffersOk(st) && SameBook(st, st')
    ensures PlacesOk(st') && OffersOk(st')
  {
    hide Carried, AreEqual;
  }

  lemma SameReasons(st: Service, st': Service)
    requires ReasonsOk(st) && SameBook(st, st') && (st.callReply.Some? ==> Current(st') == Current(st))
    ensures ReasonsOk(st')
  {
    hide Kept, Current;
  }

  lemma SameBookKeeps(st: Service, st': Service)
    requires Inv(st) && SameBook(st, st') && (st.callReply.Some? ==> Current(st') == Current(st))
    ensures PlacesOk(st') && ReasonsOk(st') && OffersOk(st') && AnswersOk(st')
  {
    hide PlacesOk, ReasonsOk, OffersOk, AnswersOk;
    SameAnswers(st, st');
    SamePlaces(st, st');
    SameReasons(st, st');
  }

  lemma ArriveKeeps(st: Service, request: CSRequest)
    requires Inv(st)
    ensures Inv(Arrive(st, request)) && Keeps(st, Arrive(st, request))
  {
    hide PlacesOk, OffersOk, AnswersOk, KeptIn;
    var st' := Arrive(st, request);
    assert st.lastReqId + 1 !in st.proxyRequests;
    SameBookKeeps(st, st');
  }

  lemma FlightKeeps(st: Service, reqId: nat)
    requires Inv(st) && st.inFlight.None? && reqId in st.proxyRequests
    ensures var st1 := st.(inFlight := Some(reqId));
      Inv(st1) && Keeps(st1, st1) && Current(st1) == Some(st.proxyRequests[reqId]) && st1.callReply.None?
  {
    hide PlacesOk, OffersOk, AnswersOk, KeptIn;
    SameBookKeeps(st, st.(inFlight := Some(reqId)));
  }

  // A call ends.

  /** From an idle contract with a request about to be executed to an idle contract without it. */
  lemma AnswerKeeps(st: Service, st2: Service, reqId: nat, dappOk: bool)
    requires Inv(st) && st.inFlight.None? && reqId in st.proxyRequests
    requires Inv(st2) && Keeps(st.(inFlight := Some(reqId)), st2) && (!dappOk ==> st2.callReply.None?)
    ensures Current(st2) == Some(st.proxyRequests[reqId])
    ensures Answer(st2, dappOk).Some? ==>
      var st3 := Answer(st2, dappOk).value; Inv(st3) && Keeps(st, st3) && st3.inFlight.None?
  {
    hide Inv;
    assert Current(st.(inFlight := Some(reqId))).Some?;
    if Answer(st2, dappOk).Some? {
      AnswerInv(st2, dappOk);
      AnswerForgetsNothing(st2, dappOk);
    }
  }

  lemma AnswerInv(st: Service, dappOk: bool)
    requires Inv(st) && Answer(st, dappOk).Some? && (!dappOk ==> st.callReply.None?)
    ensures Inv(Answer(st, dappOk).value) && st.inFlight.value !in st.book.executed
  {
    hide IdsOk, PlacesOk, ReasonsOk, AnswersOk, AreEqual;
    AnswerKeepsIds(st, dappOk);
    AnswerKeepsPlaces(st, dappOk);
    AnswerKeepsReasons(st, dappOk);
    AnswerKeepsAnswers(st, dappOk);
  }

  lemma AnswerForgetsNothing(st: Service, dappOk: bool)
    requires Answer(st, dappOk).Some? && st.inFlight.value !in st.book.executed
    ensures var st' := Answer(st, dappOk).value;
      && st.book.commits <= st'.book.commits && st.book.responses <= st'.book.responses
      && Runs.Sub(st.book.executed, st'.book.executed)
  {
  }

  lemma AnswerKeepsIds(st: Service, dappOk: bool)
    requires SlotsOk(st) && IdsOk(st) && Answer(st, dappOk).Some?
    ensures IdsOk(Answer(st, dappOk).value) && st.inFlight.value !in st.book.executed
  {
  }

  lemma AnswerKeepsPlaces(st: Service, dappOk: bool)
    requires PlacesOk(st) && Answer(st, dappOk).Some?
    ensures PlacesOk(Answer(st, dappOk).value)
  {
    var st', request := Answer(st, dappOk).value, Current(st).value;
    if request.msgType.CallWithRollback? {
      assert st'.book.responses[..|st'.book.responses| - 1] == st.book.responses;
    }
  }

  lemma AnswerKeepsReasons(st: Service, dappOk: bool)
    requires ReasonsOk(st) && Answer(st, dappOk).Some? && (!dappOk ==> st.callReply.None?)
    ensures ReasonsOk(Answer(st, dappOk).value)
  {
    hide Kept;
  }

  lemma AnswerKeepsAnswers(st: Service, dappOk: bool)
    requires AnswersOk(st) && ReasonsOk(st) && Answer(st, dappOk).Some? && st.inFlight.value !in st.book.executed
    ensures AnswersOk(Answer(st, dappOk).value)
  {
    hide Kept;
    var st' := Answer(st, dappOk).value;
    var id := st.inFlight.value;
    forall i | 0 <= i < |st'.book.responses| ensures ResponseOk(st', st'.book.responses[i]) {
      if i < |st.book.responses| { assert ResponseOk(st, st.book.responses[i]); }
    }
    forall i, j | 0 <= i < j < |st'.book.responses| ensures st'.book.responses[i].id != st'.book.responses[j].id {
      assert ResponseOk(st, st.book.responses[i]);
    }
    forall x | x in st'.book.executed && st'.book.executed[x].request.msgType.CallWithRollback?
      ensures exists i :: 0 <= i < |st'.book.responses| && st'.book.responses[i].id == x
    {
      if x == id {
        assert st'.book.responses[|st.book.responses|].id == id;
      } else {
        var i :| 0 <= i < |st.book.responses| && st.book.responses[i].id == x;
        assert st'.book.responses[i].id == x;
      }
    }
  }

  // All calls.

  lemma {:induction false} ExecKeeps(st: Service, tx: Tx)
    requires Inv(st)
    ensures Exec(st, tx).Some? ==> Inv(Exec(st, tx).value) && Keeps(st, Exec(st, tx).value)
    decreases tx, 1
  {
    hide Inv, Keeps, Accept, Arrive, OfferOf, Kept;
    match tx
    case Send(_, _, _, _, _, _, connections, _) =>
      var st1 := Accept(st, OfferOf(st, tx));
      AcceptKeeps(st, tx);
      ExecAllKeeps(st1, connections);
      KeepsOn(st, st1, ExecAll(st1, connections));
    case Receive(request) => ArriveKeeps(st, request);
    case Execute(_, _, _, _, _, _) => ExecuteKeeps(st, tx);
    case Other(inside, ok) => ExecAllKeeps(st, inside);
  }

  lemma {:induction false} ExecuteKeeps(st: Service, tx: Tx)
    requires Inv(st) && tx.Execute?
    ensures Exec(st, tx).Some? ==> Inv(Exec(st, tx).value) && Keeps(st, Exec(st, tx).value)
    decreases tx, 0
  {
    hide Inv, Keeps, ExecAll, Answer, Current;
    if tx.reqId in st.proxyRequests && st.inFlight.None? {
      var st1 := st.(inFlight := Some(tx.reqId));
      FlightKeeps(st, tx.reqId);
      ExecAllKeeps(st1, tx.dapp);
      var st2 := if tx.dappOk then ExecAll(st1, tx.dapp) else st1;
      AnswerKeeps(st, st2, tx.reqId, tx.dappOk);
      if Answer(st2, tx.dappOk).Some? {
        var st3 := Answer(st2, tx.dappOk).value;
        ExecAllKeeps(st3, tx.connections);
        KeepsOn(st, st3, ExecAll(st3, tx.connections));
      }
    }
  }

  lemma {:induction false} ExecAllKeeps(st: Service, txs: seq<Tx>)
    requires Inv(st)
    ensures Inv(ExecAll(st, txs)) && Keeps(st, ExecAll(st, txs))
    decreases txs, 1
  {
    hide Inv;
    if txs != [] {
      var st1 := ExecAll(st, txs[..|txs| - 1]);
      ExecAllKeeps(st, txs[..|txs| - 1]);
      ExecKeeps(st1, txs[|txs| - 1]);
      KeepsOn(st, st1, ExecAll(st, txs));
    }
  }

  lemma IdleOk(nid: Nid)
    ensures Inv(Idle(nid))
  {
  }

  // ---------------------------------------------------------------- main results

  /** Every run of top-level transactions: between them no call is in flight and no reply is kept. */
  lemma SlotsEmptyBetween(nid: Nid, txs: seq<Tx>)
    ensures var st := ExecAll(Idle(nid), txs);
      st.inFlight.None? && st.callReply.None? && forall id: nat :: st.book.commits[id] <= 1
  {
    IdleOk(nid);
    ExecAllKeeps(Idle(nid), txs);
  }

  /** Every run: an executed request has exactly one answer if it is a call with rollback, with its
      number and outcome, and no answer otherwise. */
  lemma AnsweredExactly(nid: Nid, txs: seq<Tx>, id: nat)
    requires id in ExecAll(Idle(nid), txs).book.executed
    ensures var book := ExecAll(Idle(nid), txs).book;
      var done := book.executed[id];
      && (done.request.msgType.CallWithRollback? <==>
            exists i :: 0 <= i < |book.responses| && book.responses[i].id == id)
      && (forall i, j ::
            && 0 <= i < |book.responses| && 0 <= j < |book.responses|
            && book.responses[i].id == id && book.responses[j].id == id
            ==> i == j)
      && (forall i :: 0 <= i < |book.responses| && book.responses[i].id == id ==>
            book.responses[i].sn == done.request.sn && book.responses[i].code == done.code)
  {
    hide ExecAll;
    IdleOk(nid);
    ExecAllKeeps(Idle(nid), txs);
    var st := ExecAll(Idle(nid), txs);
    forall i | 0 <= i < |st.book.responses| ensures ResponseOk(st, st.book.responses[i]) { }
  }

  /** An answer that carries the message with this number. */
  ghost predicate CarriedBy(st: Service, n: nat, a: Response) {
    && a.reply.Some? && a.reply.value.sn == n && a.code == Success
    && n in st.book.offers && a.reply.value == st.book.offers[n].request
    && a.id in st.book.executed && st.book.offers[n].during == Some(st.book.executed[a.id].request)
  }

  lemma {:induction false} CarriedMeans(responses: seq<Response>, n: nat)
    requires Carried(responses)[n] > 0
    ensures exists i :: 0 <= i < |responses| && responses[i].reply.Some? && responses[i].reply.value.sn == n
    decreases |responses|
  {
    var last := responses[|responses| - 1];
    if last.reply.Some? && last.reply.value.sn == n {
      assert responses[|responses| - 1].reply.value.sn == n;
    } else {
      CarriedMeans(responses[..|responses| - 1], n);
      var i :| 0 <= i < |responses| - 1 && responses[i].reply.Some? && responses[i].reply.value.sn == n;
    }
  }

  lemma {:induction false} CarriedCounts(responses: seq<Response>, i: nat)
    requires i < |responses| && responses[i].reply.Some?
    ensures Carried(responses)[responses[i].reply.value.sn] > 0
    decreases |responses|
  {
    if i < |responses| - 1 { CarriedCounts(responses[..|responses| - 1], i); }
  }

  /** Every run, every message accepted at any depth: it was handed to connections, or an answer
      carries it, or it was dropped, and exactly one of these. It was dropped if and only if it was the
      first to be sent back to where the call in flight came from, it asked for no rollback, and that
      call was not a call with rollback; in that case nobody will ever receive it. If that call was one
      with rollback, and only then, an answer carries it, and it is that call's answer. */
  lemma EverySendAccounted(nid: Nid, txs: seq<Tx>, n: nat)
    requires 1 <= n <= ExecAll(Idle(nid), txs).sn
    ensures var st := ExecAll(Idle(nid), txs);
      && n in st.book.offers && st.book.offers[n].request.sn == n
      && (var o := st.book.offers[n];
          var carried := exists i :: 0 <= i < |st.book.responses| && CarriedBy(st, n, st.book.responses[i]);
          && st.book.handed[n] + st.book.dropped[n] == (if carried then 0 else 1)
          && (st.book.handed[n] == 1 <==> !(SentBack(o) && !o.request.msgType.CallWithRollback?))
          && (st.book.dropped[n] == 1 <==>
                SentBack(o) && !o.request.msgType.CallWithRollback? && !o.during.value.msgType.CallWithRollback?)
          && (carried <==>
                SentBack(o) && !o.request.msgType.CallWithRollback? && o.during.value.msgType.CallWithRollback?))
  {
    hide ExecAll, Carried;
    IdleOk(nid);
    ExecAllKeeps(Idle(nid), txs);
    var st := ExecAll(Idle(nid), txs);
    PlaceOf(st, n);
  }

  lemma PlaceOf(st: Service, n: nat)
    requires Inv(st) && st.callReply.None? && 1 <= n <= st.sn
    ensures var o := st.book.offers[n];
      var carried := exists i :: 0 <= i < |st.book.responses| && CarriedBy(st, n, st.book.responses[i]);
      && (Carried(st.book.responses)[n] > 0 <==> carried)
      && (carried ==> Kept(o) && o.during.Some? && o.during.value.msgType.CallWithRollback?)
  {
    hide Carried, PlacesOk, ReasonsOk, IdsOk;
    if Carried(st.book.responses)[n] > 0 {
      CarriedMeans(st.book.responses, n);
      var i :| 0 <= i < |st.book.responses| && st.book.responses[i].reply.Some?
        && st.book.responses[i].reply.value.sn == n;
      assert ResponseOk(st, st.book.responses[i]);
      assert CarriedBy(st, n, st.book.responses[i]);
    }
    forall i | 0 <= i < |st.book.responses| && CarriedBy(st, n, st.book.responses[i])
      ensures Carried(st.book.responses)[n] > 0 && ResponseOk(st, st.book.responses[i])
    {
      CarriedCounts(st.book.responses, i);
    }
  }

  /** The message a dapp sends back during a one-way call is lost: accepted under number one, never
      handed to a connection, carried by no answer. */
  lemma OneWayReplyIsLost(nid: Nid, request: CSRequest, sender: Addr, account: Addr, message: AnyMessage,
                          sources: seq<Addr>, destinations: seq<Addr>)
    requires !request.msgType.CallWithRollback? && !message.CallMessageWithRollback?
      && AreEqual(request.protocols, sources)
    ensures
      var back := Send(sender, NetworkAddress(request.from.nid, account), message, sources, destinations, true, [],
        true);
      var st := ExecAll(Idle(nid), [Receive(request), Execute(1, request.data, [back], true, [], true)]);
      && st.sn == 1 && st.book.commits == multiset{1} && st.book.dropped == multiset{1}
      && st.book.handed == multiset{} && st.book.responses == []
  {
    var back := Send(sender, NetworkAddress(request.from.nid, account), message, sources, destinations, true, [], true);
    var execute := Execute(1, request.data, [back], true, [], true);
    var st0 := Idle(nid);
    var st1 := Arrive(st0, request);
    var st2 := st1.(inFlight := Some(1));
    assert Current(st2) == Some(Proxy(request, request.protocols)) && IsReply(st2, request.from.nid, sources);
    var st3 := Accept(st2, OfferOf(st2, back));
    assert [back][..0] == [] && ExecAll(st2, []) == st2 && ExecAll(st2, [back]) == st3;
    assert Current(st3) == Current(st2);
    var txs := [Receive(request), execute];
    assert txs[..1] == [Receive(request)] && txs[..1][..0] == [];
    assert ExecAll(st0, txs[..1]) == st1;
    assert Exec(st1, execute) == Answer(st3, true);
    assert ExecAll(st0, txs) == Answer(st3, true).value;
  }

  /** The message a dapp sends back during a call with rollback is carried by its answer: accepted under
      number one, handed to no connection, in the one answer there is. */
  lemma RollbackReplyIsCarried(nid: Nid, request: CSRequest, sender: Addr, account: Addr, message: AnyMessage,
                               sources: seq<Addr>, destinations: seq<Addr>)
    requires request.msgType.CallWithRollback? && !message.CallMessageWithRollback?
      && AreEqual(request.protocols, sources)
    ensures
      var back := Send(sender, NetworkAddress(request.from.nid, account), message, sources, destinations, true, [],
        true);
      var st := ExecAll(Idle(nid), [Receive(request), Execute(1, request.data, [back], true, [], true)]);
      var reply := CSRequest(NetworkAddress(nid, sender), account, 1, message.Type(), message.data, destinations);
      && st.sn == 1 && st.book.commits == multiset{1} && st.book.dropped == multiset{}
      && st.book.handed == multiset{} && st.book.responses == [Response(1, request.sn, Success, Some(reply))]
  {
    var back := Send(sender, NetworkAddress(request.from.nid, account), message, sources, destinations, true, [], true);
    var execute := Execute(1, request.data, [back], true, [], true);
    var st0 := Idle(nid);
    var st1 := Arrive(st0, request);
    var st2 := st1.(inFlight := Some(1));
    assert Current(st2) == Some(Proxy(request, request.protocols)) && IsReply(st2, request.from.nid, sources);
    var st3 := Accept(st2, OfferOf(st2, back));
    assert [back][..0] == [] && ExecAll(st2, []) == st2 && ExecAll(st2, [back]) == st3;
    assert Current(st3) == Current(st2);
    var txs := [Receive(request), execute];
    assert txs[..1] == [Receive(request)] && txs[..1][..0] == [];
    assert ExecAll(st0, txs[..1]) == st1;
    assert ExecAll(Answer(st3, true).value, []) == Answer(st3, true).value;
    assert Exec(st1, execute) == Answer(st3, true);
    assert ExecAll(st0, txs) == Answer(st3, true).value;
  }

  /** Inside a dapp call, after any nested calls: it is the only call in flight, its request is still
      there, and a kept reply goes to its source network over its protocols. */
  lemma ReplyDiscipline(nid: Nid, txs: seq<Tx>, reqId: nat, inner: seq<Tx>)
    requires reqId in ExecAll(Idle(nid), txs).proxyRequests
    ensures var before := ExecAll(Idle(nid), txs);
      var st := ExecAll(before.(inFlight := Some(reqId)), inner);
      var p := before.proxyRequests[reqId];
      && st.inFlight == Some(reqId) && reqId in st.proxyRequests && st.proxyRequests[reqId] == p
      && (forall id, data, dapp, dappOk, cs, csOk :: Exec(st, Execute(id, data, dapp, dappOk, cs, csOk)).None?)
      && (st.callReply.Some? ==>
            var n := st.callReply.value.sn;
            && n in st.book.offers && st.book.offers[n].request == st.callReply.value
            && st.book.offers[n].to == p.from.nid
            && (Runs.NoDup(p.protocols) ==> multiset(st.book.offers[n].sources) == multiset(p.protocols)))
  {
    hide ExecAll, PlacesOk, AnswersOk, IdsOk;
    IdleOk(nid);
    ExecAllKeeps(Idle(nid), txs);
    var before := ExecAll(Idle(nid), txs);
    FlightKeeps(before, reqId);
    var st1 := before.(inFlight := Some(reqId));
    ExecAllKeeps(st1, inner);
    var st := ExecAll(st1, inner);
    assert Current(st) == Current(st1);
    if st.callReply.Some? && Runs.NoDup(before.proxyRequests[reqId].protocols) {
      EqualIsPermutation(before.proxyRequests[reqId].protocols, st.book.offers[st.callReply.value.sn].sources);
    }
  }

  /** Executed at most once: after an id was executed no later transaction executes it again. */
  lemma ExecutedOnce(nid: Nid, txs: seq<Tx>, more: seq<Tx>, id: nat)
    requires id in ExecAll(Idle(nid), txs).book.commits
    ensures var st := ExecAll(ExecAll(Idle(nid), txs), more);
      st.book.commits[id] == 1 && id !in st.proxyRequests
      && forall data, dapp, dappOk, cs, csOk :: Exec(st, Execute(id, data, dapp, dappOk, cs, csOk)).None?
  {
    hide ExecAll, PlacesOk, ReasonsOk, OffersOk, AnswersOk;
    IdleOk(nid);
    ExecAllKeeps(Idle(nid), txs);
    ExecAllKeeps(ExecAll(Idle(nid), txs), more);
  }

  /** A failed call: one that may be retried fails as a whole and changes nothing. A plain call is
      used up without an answer, and what its dapp did is gone. A call with rollback is used up and
      answered with a failure and no reply, unless a connection refuses the answer. */
  lemma FailedCall(st: Service, reqId: nat, data: bytes, dapp: seq<Tx>, connections: seq<Tx>, connectionsOk: bool)
    requires Inv(st) && st.inFlight.None? && reqId in st.proxyRequests && Keccak(data) == st.proxyRequests[reqId].data
    ensures var p := st.proxyRequests[reqId];
      var r := Exec(st, Execute(reqId, data, dapp, false, connections, connectionsOk));
      var after := st.(proxyRequests := st.proxyRequests - {reqId}, book := st.book.(
        executed := st.book.executed[reqId := Executed(p, Failure)], commits := st.book.commits + multiset{reqId}));
      && (p.msgType.CallPersisted? ==> r.None?)
      && (p.msgType.Call? ==> r == Some(after))
      && (p.msgType.CallWithRollback? ==>
            && (r.Some? <==> connectionsOk)
            && (r.Some? ==>
                  && reqId !in r.value.proxyRequests && reqId in r.value.book.commits
                  && st.book.responses + [Response(reqId, p.sn, Failure, None)] <= r.value.book.responses))
  {
    hide ExecAll, PlacesOk, ReasonsOk, OffersOk, AnswersOk;
    var p := st.proxyRequests[reqId];
    var st1 := st.(inFlight := Some(reqId));
    FlightKeeps(st, reqId);
    AnswerKeeps(st, st1, reqId, false);
    if p.msgType.CallWithRollback? {
      var st3 := Answer(st1, false).value;
      ExecAllKeeps(st3, connections);
      var end := ExecAll(st3, connections);
      assert reqId in st3.book.commits;
      assert end.book.commits[reqId] >= 1;
    }
  }

  /** What fails, and so leaves no trace: a send whose checks fail, or one that is not kept as the reply
      and whose connections fail; the execution of an unknown request, with other data than it came
      with, or during another call; anything else that fails. */
  lemma FailedCalls(st: Service, tx: Tx)
    ensures tx.Send? && !tx.checksOk ==> Exec(st, tx).None?
    ensures tx.Send? && tx.checksOk && !tx.connectionsOk ==>
      (Exec(st, tx).Some? <==> SentBack(OfferOf(st, tx)) && !tx.message.CallMessageWithRollback?)
    ensures tx.Send? && tx.checksOk && tx.connectionsOk ==> Exec(st, tx).Some?
    ensures tx.Execute? && (tx.reqId !in st.proxyRequests || st.inFlight.Some?) ==> Exec(st, tx).None?
    ensures tx.Execute? && tx.reqId in st.proxyRequests && st.proxyRequests[tx.reqId].data != Keccak(tx.data) ==>
      Exec(st, tx).None?
    ensures tx.Other? ==> (Exec(st, tx).Some? <==> tx.ok)
    ensures tx.Receive? ==> Exec(st, tx).Some?
    ensures Exec(st, tx).None? ==> ExecAll(st, [tx]) == st
  {
    hide ExecAll, Answer;
    if tx.Send? { ReplyIsSentBack(st, tx); }
    OneCall(st, tx);
  }

  lemma OneCall(st: Service, tx: Tx)
    ensures ExecAll(st, [tx]) == if Exec(st, tx).Some? then Exec(st, tx).value else st
  {
    assert [tx][..0] == [];
  }

  // --------------------------------------------------------- comparing connections

  method CompareLists(protocols: seq<Addr>, sources: seq<Addr>) returns (equal: bool)
    ensures equal == AreEqual(protocols, sources)
  {
    if |protocols| != |sources| { return false; }
    for i := 0 to |protocols|
      invariant forall j :: 0 <= j < i ==> protocols[j] in sources
    {
      if protocols[i] !in sources { return false; }
    }
    return true;
  }

  lemma {:induction false} DistinctMultiset(s: seq<Addr>)
    requires Runs.NoDup(s)
    ensures forall a :: multiset(s)[a] <= 1
  {
    if s != [] {
      var t := s[..|s| - 1];
      DistinctMultiset(t);
      assert s == t + [s[|s| - 1]];
    }
  }

  /** For protocols without repetition the comparison is "one is a permutation of the other". */
  lemma EqualIsPermutation(protocols: seq<Addr>, sources: seq<Addr>)
    requires Runs.NoDup(protocols)
    ensures AreEqual(protocols, sources) <==> multiset(sources) == multiset(protocols)
  {
    if AreEqual(protocols, sources) {
      DistinctMultiset(protocols);
      var p, s := multiset(protocols), multiset(sources);
      forall a ensures p[a] <= s[a] {
        if a in protocols { assert a in sources && s[a] >= 1; }
      }
      assert |p| == |protocols| && |s| == |sources|;
      assert s == p + (s - p);
      assert |s - p| == 0;
    }
    if multiset(sources) == multiset(protocols) { PermutationIsEqual(protocols, sources); }
  }

  lemma PermutationIsEqual(protocols: seq<Addr>, sources: seq<Addr>)
    requires multiset(sources) == multiset(protocols)
    ensures AreEqual(protocols, sources)
  {
    assert |multiset(sources)| == |sources| && |multiset(protocols)| == |protocols|;
    forall p | p in protocols ensures p in sources { assert p in multiset(protocols); }
  }

  /** An address longer than all of them is not among them. */
  lemma {:induction false} NewAddress(s: seq<Addr>) returns (a: Addr)
    ensures forall x :: x in s ==> |x| < |a|
    decreases |s|
  {
    if s == [] {
      a := [0];
    } else {
      var b := NewAddress(s[..|s| - 1]);
      var last := s[|s| - 1];
      a := b + last + [0];
    }
  }

  /** With a repetition some list that is no permutation passes: the second of two equal protocols
      may be replaced by anything. */
  lemma RepetitionHides(protocols: seq<Addr>, i: nat, j: nat, b: Addr)
    requires i < j < |protocols| && protocols[i] == protocols[j] && b !in protocols
    ensures AreEqual(protocols, protocols[j := b]) && multiset(protocols[j := b]) != multiset(protocols)
  {
    var s := protocols[j := b];
    assert s[j] == b && s[i] == protocols[i];
    assert b in multiset(s) && b !in multiset(protocols);
    forall p | p in protocols ensures p in s {
      var k :| 0 <= k < |protocols| && protocols[k] == p;
      assert s[if k == j then i else k] == p;
    }
  }

  /** The comparison means "a permutation" for all sources if and only if no protocol is repeated. */
  lemma ComparisonExact(protocols: seq<Addr>)
    ensures (forall s :: AreEqual(protocols, s) <==> multiset(s) == multiset(protocols)) <==> Runs.NoDup(protocols)
  {
    if Runs.NoDup(protocols) {
      forall s ensures AreEqual(protocols, s) <==> multiset(s) == multiset(protocols) {
        EqualIsPermutation(protocols, s);
      }
    } else {
      var i, j :| 0 <= i < j < |protocols| && protocols[i] == protocols[j];
      var b := NewAddress(protocols);
      RepetitionHides(protocols, i, j, b);
    }
  }

  // ------------------------------------------------------------------ the contract

  /** The contract as written: items of storage that are saved and removed one by one. */
  class Contract {
    var networkId: Nid
    var sn: nat
    var lastReqId: nat
    var proxyRequests: map<nat, ProxyRequest>
    var callbackData: Option<nat>
    var callReply: Option<CSRequest>
    var book: Book

    function Storage(): Service
      reads this
    {
      Service(networkId, sn, lastReqId, proxyRequests, callbackData, callReply, book)
    }

    constructor (nid: Nid)
      ensures Storage() == Idle(nid)
    {
      networkId, sn, lastReqId, proxyRequests := nid, 0, 0, map[];
      callbackData, callReply := None, None;
      book := Book(map[], multiset{}, multiset{}, map[], multiset{}, []);
    }

    method Restore(st: Service)
      modifies this
      ensures Storage() == st
    {
      networkId, sn, lastReqId, proxyRequests := st.networkId, st.sn, st.lastReqId, st.proxyRequests;
      callbackData, callReply, book := st.inFlight, st.callReply, st.book;
    }

    /** Refused while another call is in progress. */
    method StoreCallbackData(reqId: nat) returns (ok: bool)
      modifies this`callbackData
      ensures ok == old(callbackData).None?
      ensures callbackData == if ok then Some(reqId) else old(callbackData)
    {
      ok := callbackData.None?;
      if ok { callbackData := Some(reqId); }
    }

    method PopCallReply() returns (reply: Option<CSRequest>)
      modifies this`callReply
      ensures reply == old(callReply) && callReply.None?
    {
      reply := callReply;
      callReply := None;
    }

    method IsReplyTo(to: Nid, sources: seq<Addr>) returns (b: bool)
      ensures b == IsReply(Storage(), to, sources)
    {
      if callReply.Some? { return false; }
      if callbackData.None? || callbackData.value !in proxyRequests { return false; }
      var request := proxyRequests[callbackData.value];
      if request.from.nid != to { return false; }
      b := CompareLists(request.protocols, sources);
    }

    method SendCall(tx: Tx) returns (ok: bool)
      requires tx.Send?
      modifies this
      ensures Outcome(old(Storage()), tx, ok)
      decreases tx, 0
    {
      var before := Storage();
      if !tx.checksOk { return false; }
      var offer := OfferOf(before, tx);
      sn := sn + 1;
      book := book.(offers := book.offers[sn := offer]);
      var request := CSRequest(NetworkAddress(networkId, tx.sender), tx.to.account, sn, tx.message.Type(),
        tx.message.data, tx.destinations);
      if !tx.message.CallMessageWithRollback? {
        var replying := IsReplyTo(tx.to.nid, tx.sources);
        if replying {
          callReply := Some(request);
          return true;
        }
      }
      if !tx.connectionsOk {
        Restore(before);
        return false;
      }
      book := book.(handed := book.handed + multiset{sn});
      PerformAll(tx.connections);
      return true;
    }

    /** The call and its reply handler. */
    method ExecuteCall(tx: Tx) returns (ok: bool)
      requires tx.Execute?
      modifies this
      ensures Outcome(old(Storage()), tx, ok)
      decreases tx, 0
    {
      var before := Storage();
      if tx.reqId !in proxyRequests { return false; }
      var request := proxyRequests[tx.reqId];
      if Keccak(tx.data) != request.data { return false; }
      var stored := StoreCallbackData(tx.reqId);
      if !stored { return false; }
      if tx.dappOk { PerformAll(tx.dapp); }
      var answered := ExecuteCallReply(tx.dappOk);
      if !answered {
        Restore(before);
        return false;
      }
      if request.msgType.CallWithRollback? {
        if !tx.connectionsOk {
          Restore(before);
          return false;
        }
        PerformAll(tx.connections);
      }
      return true;
    }

    method ExecuteCallReply(dappOk: bool) returns (ok: bool)
      modifies this
      ensures ok == Answer(old(Storage()), dappOk).Some?
      ensures ok ==> Storage() == Answer(old(Storage()), dappOk).value
    {
      if callbackData.None? { return false; }
      var reqId := callbackData.value;
      callbackData := None;
      if reqId !in proxyRequests { return false; }
      var request := proxyRequests[reqId];
      proxyRequests := proxyRequests - {reqId};
      var reply := PopCallReply();
      if !dappOk && request.msgType.CallPersisted? { return false; }
      var code := CodeOf(dappOk);
      book := book.(executed := book.executed[reqId := Executed(request, code)],
        commits := book.commits + multiset{reqId});
      if request.msgType.CallWithRollback? {
        var answer := Response(reqId, request.sn, code, if dappOk then reply else None);
        book := book.(responses := book.responses + [answer]);
        if !dappOk && reply.Some? { book := book.(dropped := book.dropped + multiset{reply.value.sn}); }
      } else if reply.Some? {
        book := book.(dropped := book.dropped + multiset{reply.value.sn});
      }
      return true;
    }

    ghost predicate Outcome(before: Service, tx: Tx, ok: bool)
      reads this
    {
      match Exec(before, tx)
      case Some(st) => ok && Storage() == st
      case None => !ok && Storage() == before
    }

    method Perform(tx: Tx) returns (ok: bool)
      modifies this
      ensures Outcome(old(Storage()), tx, ok)
      decreases tx, 1
    {
      match tx
      case Send(_, _, _, _, _, _, _, _) => ok := SendCall(tx);
      case Execute(_, _, _, _, _, _) => ok := ExecuteCall(tx);
      case Receive(request) =>
        lastReqId := lastReqId + 1;
        proxyRequests := proxyRequests[lastReqId := Proxy(request, request.protocols)];
        ok := true;
      case Other(inside, fine) =>
        if fine { PerformAll(inside); }
        ok := fine;
    }

    method PerformAll(txs: seq<Tx>)
      modifies this
      ensures Storage() == ExecAll(old(Storage()), txs)
      decreases txs, 2
    {
      for i := 0 to |txs|
        invariant Storage() == ExecAll(old(Storage()), txs[..i])
      {
        assert txs[..i + 1][..i] == txs[..i];
        var _ := Perform(txs[i]);
      }
      assert txs[..|txs|] == txs;
    }
  }
}
