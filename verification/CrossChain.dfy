/**
 Two chains, each with the xCall contract and any number of connection contracts, joined by
 relayers. A relayed connection hands over what its peer's log holds, each serial number at
 most once. Everybody else may call the contracts with anything at any time: an account that
 is not a relayed connection may deliver forged requests, forged results and reverts.
 */
module CrossChain {
  import opened Bytes
  import opened XCall
  import opened XCallRuns

  /** One chain. `log` holds what each connection was asked to send, in order: entry k has serial
      number k + 1. `receipts` holds the serial numbers each connection has handed over, `reverted`
      who reverted which sequence number: reverts the contract accepted. */
  datatype Node = Node(
    chain: Chain, log: map<Addr, seq<Outgoing>>, receipts: set<(Addr, nat)>, reverted: set<(Addr, nat)>)

  /** Relayed connections: (connection on this chain, its peer on the other chain). */
  type Links = set<(Addr, Addr)>

  datatype World = World(left: Node, right: Node)

  datatype Side = Left | Right

  datatype WorldStep =
    | Local(side: Side, step: Step)
    | Relay(to: Side, connection: Addr, peer: Addr, index: nat)

  function Flip(links: Links): Links { set p | p in links :: (p.1, p.0) }

  ghost predicate OneToOne(links: Links) {
    forall p, q :: p in links && q in links && (p.0 == q.0 || p.1 == q.1) ==> p == q
  }

  ghost predicate Connected(links: Links, a: Addr) { exists b :: (a, b) in links }

  // -------------------------------------------------------------------- steps

  /** The connections' logs after a transaction: one entry per `send_message` call. */
  function Post(log: map<Addr, seq<Outgoing>>, out: seq<Outgoing>): map<Addr, seq<Outgoing>>
    decreases |out|
  {
    if out == [] then log else
    var log1 := Post(log, out[..|out| - 1]);
    var o := out[|out| - 1];
    log1[o.connection := Lookup(log1, o.connection) + [o]]
  }

  /** A revert counts when the contract takes it. */
  function NewReverts(st: State, step: Step): set<(Addr, nat)> {
    if step.Revert? && HandleError(st, step.sender, step.sn).Ok? then {(step.sender, step.sn)} else {}
  }

  function LocalStep(n: Node, step: Step): Node {
    var (chain', out) := Apply(n.chain, step);
    n.(chain := chain', log := Post(n.log, out), reverted := n.reverted + NewReverts(n.chain.st, step))
  }

  /** `recv_message` of a connection: refused when the serial number was handed over before; a
      failed `handle_message` undoes the receipt as well. */
  function RelayStep(dst: Node, src: Node, b: Addr, a: Addr, k: nat): Node {
    var entries := Lookup(src.log, a);
    if k >= |entries| || entries[k].nid != dst.chain.st.networkId || (b, k) in dst.receipts then dst
    else if HandleMessage(dst.chain.st, b, src.chain.st.networkId, entries[k].message).Err? then dst
    else dst.(chain := Apply(dst.chain, Deliver(b, src.chain.st.networkId, entries[k].message)).0,
      receipts := dst.receipts + {(b, k)})
  }

  /** What may happen on a chain with relayed connections `links` towards network `other`: callers
      outside the relayed connections do as they like, relayed connections may also revert; the
      default connection towards the other chain is a relayed one. */
  ghost predicate Allowed(links: Links, other: Nid, step: Step) {
    match step
    case Deliver(sender, _, _) => !Connected(links, sender)
    case SetDefault(nid, connection) => nid == other ==> Connected(links, connection)
    case _ => true
  }

  ghost predicate Enabled(links: Links, w: World, s: WorldStep) {
    match s
    case Local(Left, step) => Allowed(links, w.right.chain.st.networkId, step)
    case Local(Right, step) => Allowed(Flip(links), w.left.chain.st.networkId, step)
    case Relay(Right, b, a, _) => (a, b) in links
    case Relay(Left, b, a, _) => (b, a) in links
  }

  function Next(w: World, s: WorldStep): World {
    match s
    case Local(Left, step) => w.(left := LocalStep(w.left, step))
    case Local(Right, step) => w.(right := LocalStep(w.right, step))
    case Relay(Right, b, a, k) => w.(right := RelayStep(w.right, w.left, b, a, k))
    case Relay(Left, b, a, k) => w.(left := RelayStep(w.left, w.right, b, a, k))
  }

  function Genesis(leftNid: Nid, rightNid: Nid): World {
    World(Node(Start(leftNid), map[], {}, {}), Node(Start(rightNid), map[], {}, {}))
  }

  function RunWorld(w: World, steps: seq<WorldStep>): World
    decreases |steps|
  {
    if steps == [] then w else Next(RunWorld(w, steps[..|steps| - 1]), steps[|steps| - 1])
  }

  ghost predicate AllEnabled(links: Links, w: World, steps: seq<WorldStep>)
    decreases |steps|
  {
    steps == [] || (AllEnabled(links, w, steps[..|steps| - 1])
      && Enabled(links, RunWorld(w, steps[..|steps| - 1]), steps[|steps| - 1]))
  }

  // --------------------------------------- invariants of one direction, s to d

  /** Connections were asked to send requests only as the contract issued them. */
  ghost predicate RequestsIssued(s: Node) {
    forall a, i, r :: 0 <= i < |Lookup(s.log, a)| && Lookup(s.log, a)[i].message == RequestMessage(r) ==>
      r.sn in s.chain.h.issued && s.chain.h.issued[r.sn].request == r
  }

  /** A request over pairwise different connections is in each connection's log once. */
  ghost predicate RequestsUnique(s: Node) {
    forall a, i, j, r ::
      && 0 <= i < |Lookup(s.log, a)| && 0 <= j < |Lookup(s.log, a)|
      && Lookup(s.log, a)[i].message == RequestMessage(r) && Lookup(s.log, a)[j].message == RequestMessage(r)
      && r.sn in s.chain.h.issued && NoDup(s.chain.h.issued[r.sn].sources)
      ==> i == j
  }

  /** A request over one connection, or the default one, is in that connection's log only. */
  ghost predicate RequestsAlone(s: Node) {
    forall a, b, i, j, r ::
      && 0 <= i < |Lookup(s.log, a)| && 0 <= j < |Lookup(s.log, b)|
      && Lookup(s.log, a)[i].message == RequestMessage(r) && Lookup(s.log, b)[j].message == RequestMessage(r)
      && r.sn in s.chain.h.issued && |s.chain.h.issued[r.sn].sources| <= 1
      ==> a == b
  }

  /** `s` executed the request with this sequence number that `d` issued, with this outcome. */
  ghost predicate Executed(s: History, d: History, sn: nat, code: ResponseCode) {
    && sn in d.issued
    && exists id ::
         id in s.outcome && id in s.origin && s.origin[id] == FromRequest(d.issued[sn].request) && s.outcome[id] == code
  }

  /** A relayed connection of `s` sends `d` only results of executed requests of `d`. */
  ghost predicate ResultsExecuted(links: Links, s: Node, d: Node) {
    forall a, i :: 0 <= i < |Lookup(s.log, a)| && Connected(links, a) ==>
      var o := Lookup(s.log, a)[i];
      o.message.ResultMessage? && o.nid == d.chain.st.networkId ==>
        o.message.result.message.Empty? && Executed(s.chain.h, d.chain.h, o.message.result.sn, o.message.result.code)
  }

  /** Entry `k` of connection `a`'s log. */
  ghost predicate Logged(s: Node, a: Addr, k: nat, nid: Nid, msg: CSMessage) {
    k < |Lookup(s.log, a)| && Lookup(s.log, a)[k].nid == nid && Lookup(s.log, a)[k].message == msg
  }

  /** What a relayed connection delivered to `d` is in its peer's log, under a receipt. */
  ghost predicate RequestsReceived(links: Links, s: Node, d: Node) {
    forall a, b, r :: (a, b) in links && (b, r) in d.chain.h.delivered ==>
      exists k: nat :: (b, k) in d.receipts && Logged(s, a, k, d.chain.st.networkId, RequestMessage(r))
  }

  /** What connection `a` delivered stands for its own revert. */
  ghost predicate Reverts(reverted: set<(Addr, nat)>, a: Addr, m: CSResult) {
    (a, m.sn) in reverted && m == RevertResult(m.sn)
  }

  ghost predicate ResultsReceived(links: Links, s: Node, d: Node) {
    forall a, b, m :: (a, b) in links && (b, m) in d.chain.h.results && !Reverts(d.reverted, b, m) ==>
      exists k: nat :: Logged(s, a, k, d.chain.st.networkId, ResultMessage(m))
  }

  ghost predicate DeliveredOnce(links: Links, s: Node, d: Node) {
    forall a, b, r: CSRequest ::
      && (a, b) in links && r.sn in s.chain.h.issued
      && s.chain.h.issued[r.sn].request == r && NoDup(s.chain.h.issued[r.sn].sources)
      ==> d.chain.h.delivered[(b, r)] <= 1
  }

  ghost predicate DefaultsRelayed(links: Links, s: Node, other: Nid) {
    forall a :: (other, a) in s.chain.h.defaults ==> Connected(links, a)
  }

  ghost predicate Direction(links: Links, s: Node, d: Node) {
    && RequestsIssued(s) && RequestsUnique(s) && RequestsAlone(s) && ResultsExecuted(links, s, d)
    && RequestsReceived(links, s, d) && ResultsReceived(links, s, d) && DeliveredOnce(links, s, d)
    && DefaultsRelayed(links, s, d.chain.st.networkId)
  }

  // ------------------------------------------------------------ connection logs

  lemma {:induction false} PostAppends(log: map<Addr, seq<Outgoing>>, out: seq<Outgoing>, a: Addr)
    ensures var old_, new_ := Lookup(log, a), Lookup(Post(log, out), a);
      && |old_| <= |new_| && new_[..|old_|] == old_
      && (forall i :: |old_| <= i < |new_| ==>
            exists j :: 0 <= j < |out| && out[j] == new_[i] && out[j].connection == a)
    decreases |out|
  {
    if out != [] {
      var front := out[..|out| - 1];
      PostAppends(log, front, a);
      var old_, mid, new_ := Lookup(log, a), Lookup(Post(log, front), a), Lookup(Post(log, out), a);
      forall i | |old_| <= i < |new_|
        ensures exists j :: 0 <= j < |out| && out[j] == new_[i] && out[j].connection == a
      {
        if i < |mid| {
          var j :| 0 <= j < |front| && front[j] == mid[i] && front[j].connection == a;
          assert out[j] == new_[i];
        } else {
          assert out[|out| - 1] == new_[i];
        }
      }
    }
  }

  lemma {:induction false} PostOnce(log: map<Addr, seq<Outgoing>>, out: seq<Outgoing>, a: Addr)
    requires forall i, j :: 0 <= i < j < |out| ==> out[i].connection != out[j].connection
    ensures |Lookup(Post(log, out), a)| <= |Lookup(log, a)| + 1
    ensures (forall i :: 0 <= i < |out| ==> out[i].connection != a) ==> Lookup(Post(log, out), a) == Lookup(log, a)
    decreases |out|
  {
    if out != [] {
      PostOnce(log, out[..|out| - 1], a);
    }
  }

  // ------------------------------------------------------ what a local step adds

  /** New request entries: the call just issued, once per connection. */
  ghost predicate NewRequests(c: Chain, c': Chain, out: seq<Outgoing>) {
    forall i :: 0 <= i < |out| && out[i].message.RequestMessage? ==>
      var r := out[i].message.request;
      && r.sn !in c.h.issued && r.sn in c'.h.issued && c'.h.issued[r.sn].request == r
      && (NoDup(c'.h.issued[r.sn].sources) ==> forall k, j :: 0 <= k < j < |out| ==>
            out[k].connection != out[j].connection)
      && (|c'.h.issued[r.sn].sources| <= 1 ==> |out| == 1)
  }

  lemma SendOut(c: Chain, step: Step)
    requires IssuedOk(c) && step.Send?
    ensures NewRequests(c, Apply(c, step).0, Apply(c, step).1)
    ensures forall i :: 0 <= i < |Apply(c, step).1| ==> Apply(c, step).1[i].message.RequestMessage?
  {
  }

  /** New result entries: the outcome of the call just executed, to its protocols or the default. */
  ghost predicate NewResults(c: Chain, c': Chain, out: seq<Outgoing>, id: nat, code: ResponseCode) {
    out != [] ==>
      && id in c.st.proxyRequests && id in c'.h.outcome && c'.h.outcome[id] == code && c'.h.origin == c.h.origin
      && (var p := c.st.proxyRequests[id];
          forall i :: 0 <= i < |out| ==>
            && out[i].message == ResultMessage(CSResult(p.sn, code, Empty)) && out[i].nid == p.from.nid
            && (out[i].connection in p.protocols
                || (p.protocols == [] && p.from.nid in c.st.defaultConnections
                && out[i].connection == c.st.defaultConnections[p.from.nid])))
  }

  lemma ExecuteOut(c: Chain, step: Step)
    requires step.Execute?
    ensures NewResults(c, Apply(c, step).0, Apply(c, step).1, step.reqId, CodeOf(step.dappOk))
  {
  }

  lemma QuietOut(c: Chain, step: Step)
    requires !step.Send? && !step.Execute?
    ensures Apply(c, step).1 == []
  {
  }

  // --------------------------------- the direction from the chain that steps

  lemma IssuedKept(s: Node, chain': Chain, out: seq<Outgoing>)
    requires RequestsIssued(s) && Grows(s.chain.h, chain'.h) && NewRequests(s.chain, chain', out)
    ensures RequestsIssued(s.(chain := chain', log := Post(s.log, out)))
  {
    var s' := s.(chain := chain', log := Post(s.log, out));
    forall a, i, r | 0 <= i < |Lookup(s'.log, a)| && Lookup(s'.log, a)[i].message == RequestMessage(r)
      ensures r.sn in s'.chain.h.issued && s'.chain.h.issued[r.sn].request == r
    {
      PostAppends(s.log, out, a);
      if i < |Lookup(s.log, a)| {
        assert Lookup(s.log, a)[i] == Lookup(s'.log, a)[i];
      }
    }
  }

  lemma UniqueKept(s: Node, chain': Chain, out: seq<Outgoing>)
    requires RequestsIssued(s) && RequestsUnique(s) && Grows(s.chain.h, chain'.h) && NewRequests(s.chain, chain', out)
    ensures RequestsUnique(s.(chain := chain', log := Post(s.log, out)))
  {
    var s' := s.(chain := chain', log := Post(s.log, out));
    forall a, i, j, r |
      && 0 <= i < |Lookup(s'.log, a)| && 0 <= j < |Lookup(s'.log, a)|
      && Lookup(s'.log, a)[i].message == RequestMessage(r) && Lookup(s'.log, a)[j].message == RequestMessage(r)
      && r.sn in s'.chain.h.issued && NoDup(s'.chain.h.issued[r.sn].sources)
      ensures i == j
    {
      PostAppends(s.log, out, a);
      var n := |Lookup(s.log, a)|;
      if i < n && j < n {
        assert Lookup(s.log, a)[i] == Lookup(s'.log, a)[i] && Lookup(s.log, a)[j] == Lookup(s'.log, a)[j];
      } else if i >= n && j >= n {
        PostOnce(s.log, out, a);
      } else {
        assert false;
      }
    }
  }

  lemma AloneKept(s: Node, chain': Chain, out: seq<Outgoing>)
    requires RequestsIssued(s) && RequestsAlone(s) && Grows(s.chain.h, chain'.h) && NewRequests(s.chain, chain', out)
    ensures RequestsAlone(s.(chain := chain', log := Post(s.log, out)))
  {
    var s' := s.(chain := chain', log := Post(s.log, out));
    forall a, b, i, j, r |
      && 0 <= i < |Lookup(s'.log, a)| && 0 <= j < |Lookup(s'.log, b)|
      && Lookup(s'.log, a)[i].message == RequestMessage(r) && Lookup(s'.log, b)[j].message == RequestMessage(r)
      && r.sn in s'.chain.h.issued && |s'.chain.h.issued[r.sn].sources| <= 1
      ensures a == b
    {
      PostAppends(s.log, out, a);
      PostAppends(s.log, out, b);
      var m, n := |Lookup(s.log, a)|, |Lookup(s.log, b)|;
      if i < m && j < n {
        assert Lookup(s.log, a)[i] == Lookup(s'.log, a)[i] && Lookup(s.log, b)[j] == Lookup(s'.log, b)[j];
      } else if i < m || j < n {
        assert false;
      }
    }
  }

  lemma LoggedStays(s: Node, chain': Chain, out: seq<Outgoing>, a: Addr, k: nat, nid: Nid, msg: CSMessage)
    requires Logged(s, a, k, nid, msg)
    ensures Logged(s.(chain := chain', log := Post(s.log, out)), a, k, nid, msg)
  {
    PostAppends(s.log, out, a);
    assert Lookup(s.log, a)[k] == Lookup(Post(s.log, out), a)[k];
  }

  lemma ReceivedKeptByLog(links: Links, s: Node, d: Node, chain': Chain, out: seq<Outgoing>)
    requires RequestsReceived(links, s, d) && ResultsReceived(links, s, d)
    ensures var s' := s.(chain := chain', log := Post(s.log, out));
      RequestsReceived(links, s', d) && ResultsReceived(links, s', d)
  {
    var s' := s.(chain := chain', log := Post(s.log, out));
    forall a, k: nat, nid, msg | Logged(s, a, k, nid, msg) ensures Logged(s', a, k, nid, msg) {
      LoggedStays(s, chain', out, a, k, nid, msg);
    }
  }

  lemma OnceKeptByIssue(links: Links, s: Node, d: Node, chain': Chain, out: seq<Outgoing>)
    requires RequestsIssued(s) && RequestsReceived(links, s, d) && DeliveredOnce(links, s, d)
      && Grows(s.chain.h, chain'.h)
    ensures DeliveredOnce(links, s.(chain := chain', log := Post(s.log, out)), d)
  {
    forall a, b, r: CSRequest | (a, b) in links && (b, r) in d.chain.h.delivered ensures r.sn in s.chain.h.issued {
      var k: nat :| (b, k) in d.receipts && Logged(s, a, k, d.chain.st.networkId, RequestMessage(r));
    }
  }

  /** A relayed connection of `s` delivered this request: `d` issued it. */
  lemma DeliveredIsIssued(links: Links, s: Node, d: Node, a: Addr, r: CSRequest)
    requires RequestsReceived(Flip(links), d, s) && RequestsIssued(d)
    requires Connected(links, a) && (a, r) in s.chain.h.delivered
    ensures r.sn in d.chain.h.issued && d.chain.h.issued[r.sn].request == r
  {
    var b :| (a, b) in links;
    assert (b, a) in Flip(links);
    var k: nat :| (a, k) in s.receipts && Logged(d, b, k, s.chain.st.networkId, RequestMessage(r));
  }

  /** A relayed connection of `s` delivered this result: it carries no reply, and `d` executed the
      call unless it was reverted. */
  lemma DeliveredIsExecuted(links: Links, s: Node, d: Node, a: Addr, m: CSResult)
    requires ResultsReceived(Flip(links), d, s) && ResultsExecuted(Flip(links), d, s)
    requires Connected(links, a) && (a, m) in s.chain.h.results
    ensures m.message.Empty? && (Reverts(s.reverted, a, m) || Executed(d.chain.h, s.chain.h, m.sn, m.code))
  {
    var b :| (a, b) in links;
    assert (b, a) in Flip(links);
    if !Reverts(s.reverted, a, m) {
      var k: nat :| Logged(d, b, k, s.chain.st.networkId, ResultMessage(m));
      assert Connected(Flip(links), b);
    }
  }

  /** A proxy request from network `d` that answers through a relayed connection stands for a
      request `d` issued: forged ones never reach a relayed connection. */
  lemma OriginGenuine(links: Links, s: Node, d: Node, id: nat, a: Addr)
    requires ProxiesMatch(s.chain) && OriginsCounted(s.chain.h) && QuorumAccounting(s.chain)
      && DefaultAccounting(s.chain)
    requires RequestsReceived(Flip(links), d, s) && RequestsIssued(d)
    requires ResultsReceived(Flip(links), d, s) && ResultsExecuted(Flip(links), d, s)
    requires DefaultsRelayed(links, s, d.chain.st.networkId)
    requires id in s.chain.st.proxyRequests && s.chain.st.proxyRequests[id].from.nid == d.chain.st.networkId
    requires Connected(links, a) && (a in s.chain.st.proxyRequests[id].protocols
      || s.chain.st.proxyRequests[id].protocols == [])
    ensures var sn := s.chain.st.proxyRequests[id].sn;
      && sn in d.chain.h.issued && id in s.chain.h.origin
      && s.chain.h.origin[id] == FromRequest(d.chain.h.issued[sn].request)
  {
    var h := s.chain.h;
    match h.origin[id]
    case FromRequest(r) =>
      assert h.openings[r] >= 1;
      if r.protocols == [] {
        var e :| (r.from.nid, e) in h.defaults && (e, r) in h.delivered;
        DeliveredIsIssued(links, s, d, e, r);
      } else {
        assert h.delivered[(a, r)] >= 1;
        DeliveredIsIssued(links, s, d, a, r);
      }
    case FromReply(m) =>
      assert ReplyBacked(h, h.origin[id]);
      var call := h.issued[m.sn];
      if call.sources == [] {
        var e :| (call.to.nid, e) in h.defaults && (e, m) in h.results;
        DeliveredIsExecuted(links, s, d, e, m);
      } else {
        DeliveredIsExecuted(links, s, d, a, m);
      }
      assert false;
  }

  lemma ExecutedKept(links: Links, s: Node, d: Node, chain': Chain, out: seq<Outgoing>, id: nat, code: ResponseCode)
    requires ProxiesMatch(s.chain) && OriginsCounted(s.chain.h) && QuorumAccounting(s.chain)
      && DefaultAccounting(s.chain)
    requires RequestsReceived(Flip(links), d, s) && RequestsIssued(d)
    requires ResultsReceived(Flip(links), d, s) && ResultsExecuted(Flip(links), d, s)
    requires DefaultsRelayed(links, s, d.chain.st.networkId)
    requires ResultsExecuted(links, s, d) && Grows(s.chain.h, chain'.h) && NewResults(s.chain, chain', out, id, code)
    ensures ResultsExecuted(links, s.(chain := chain', log := Post(s.log, out)), d)
  {
    var s' := s.(chain := chain', log := Post(s.log, out));
    forall a, i | 0 <= i < |Lookup(s'.log, a)| && Connected(links, a) && Lookup(s'.log, a)[i].message.ResultMessage?
      && Lookup(s'.log, a)[i].nid == d.chain.st.networkId
      ensures var m := Lookup(s'.log, a)[i].message.result;
        m.message.Empty? && Executed(chain'.h, d.chain.h, m.sn, m.code)
    {
      PostAppends(s.log, out, a);
      if i < |Lookup(s.log, a)| {
        assert Lookup(s.log, a)[i] == Lookup(s'.log, a)[i];
      } else {
        OriginGenuine(links, s, d, id, a);
      }
    }
  }

  lemma ExecutedKeptByRequests(links: Links, s: Node, d: Node, chain': Chain, out: seq<Outgoing>)
    requires ResultsExecuted(links, s, d) && Grows(s.chain.h, chain'.h)
    requires forall i :: 0 <= i < |out| ==> out[i].message.RequestMessage?
    ensures ResultsExecuted(links, s.(chain := chain', log := Post(s.log, out)), d)
  {
    var s' := s.(chain := chain', log := Post(s.log, out));
    forall a, i | 0 <= i < |Lookup(s'.log, a)| && Connected(links, a) && Lookup(s'.log, a)[i].message.ResultMessage?
      && Lookup(s'.log, a)[i].nid == d.chain.st.networkId
      ensures var m := Lookup(s'.log, a)[i].message.result;
        m.message.Empty? && Executed(chain'.h, d.chain.h, m.sn, m.code)
    {
      PostAppends(s.log, out, a);
      assert i < |Lookup(s.log, a)| && Lookup(s.log, a)[i] == Lookup(s'.log, a)[i];
    }
  }

  // ----------------------------------- the direction towards the chain that steps

  /** Relayed connections delivered nothing new; they may have reverted. */
  ghost predicate OnlyOutsiders(links: Links, h: History, h': History, reverted: set<(Addr, nat)>) {
    && (forall a, r :: Connected(links, a) ==> h'.delivered[(a, r)] == h.delivered[(a, r)])
    && (forall a, m :: Connected(links, a) && (a, m) in h'.results && !Reverts(reverted, a, m) ==> (a, m) in h.results)
  }

  lemma AllowedOutsiders(links: Links, other: Nid, c: Chain, step: Step, reverted: set<(Addr, nat)>)
    requires Allowed(links, other, step) && NewReverts(c.st, step) <= reverted
    ensures OnlyOutsiders(links, c.h, Apply(c, step).0.h, reverted)
  {
    var c' := Apply(c, step).0;
    if step.Deliver? && step.msg.RequestMessage? {
      RequestSteps(c, step);
      assert c'.h.results == c.h.results;
      var delivery := (step.sender, step.msg.request);
      assert c'.h.delivered == c.h.delivered || c'.h.delivered == c.h.delivered + multiset{delivery};
    } else if step.Deliver? || step.Revert? {
      ResultSteps(c, step);
      ResultFrames(c, step.sender, if step.Revert? then RevertResult(step.sn) else step.msg.result);
      ResultEffect(c, step.sender, if step.Revert? then RevertResult(step.sn) else step.msg.result);
    } else {
      assert c'.h.results == c.h.results && c'.h.delivered == c.h.delivered;
    }
  }

  lemma AllowedDefaults(links: Links, s: Node, other: Nid, step: Step)
    requires Allowed(links, other, step) && DefaultsRelayed(links, s, other)
    ensures DefaultsRelayed(links, LocalStep(s, step), other)
  {
    var c := s.chain;
    if step.Deliver? && step.msg.RequestMessage? {
      RequestSteps(c, step);
      RequestFrames(c, step.sender, step.fromNid, step.msg.request);
    } else if step.Deliver? || step.Revert? {
      ResultSteps(c, step);
      ResultFramesDefaults(c, step.sender, if step.Revert? then RevertResult(step.sn) else step.msg.result);
    }
  }

  lemma NetworkIdKept(c: Chain, step: Step)
    ensures Apply(c, step).0.st.networkId == c.st.networkId
  {
    if step.Deliver? && step.msg.RequestMessage? {
      RequestSteps(c, step);
      RequestFramesResults(c, step.sender, step.fromNid, step.msg.request);
    } else if step.Deliver? || step.Revert? {
      ResultSteps(c, step);
      ResultEffect(c, step.sender, if step.Revert? then RevertResult(step.sn) else step.msg.result);
    }
  }

  /** `d` is the chain that steps; `links` goes from `s` to `d`. */
  lemma ReceiverKeeps(links: Links, s: Node, d: Node, d': Node)
    requires Direction(links, s, d)
    requires Grows(d.chain.h, d'.chain.h) && d'.chain.st.networkId == d.chain.st.networkId && d'.receipts == d.receipts
    requires OnlyOutsiders(Flip(links), d.chain.h, d'.chain.h, d'.reverted) && d.reverted <= d'.reverted
    ensures Direction(links, s, d')
  {
    forall a, b | (a, b) in links ensures Connected(Flip(links), b) {
      assert (b, a) in Flip(links);
    }
    assert RequestsReceived(links, s, d');
    assert ResultsReceived(links, s, d');
    assert DeliveredOnce(links, s, d');
  }

  lemma FlipTwice(links: Links)
    ensures Flip(Flip(links)) == links
  {
    forall p ensures p in Flip(Flip(links)) <==> p in links {
      if p in links { assert (p.1, p.0) in Flip(links); }
    }
  }

  // ------------------------------------------------------------- local steps

  lemma StepsPlain(s: Node, step: Step)
    requires !step.Revert?
    ensures LocalStep(s, step) == s.(chain := Apply(s.chain, step).0, log := Post(s.log, Apply(s.chain, step).1))
  {
    hide Apply, Post;
    assert s.reverted + {} == s.reverted;
  }

  lemma SendKeepsSender(links: Links, s: Node, d: Node, step: Step)
    requires Inv(s.chain) && Direction(links, s, d) && step.Send?
    ensures Direction(links, LocalStep(s, step), d)
  {
    StepsPlain(s, step);
    var (chain', out) := Apply(s.chain, step);
    StepGrows(s.chain, step);
    SendOut(s.chain, step);
    IssuedKept(s, chain', out);
    UniqueKept(s, chain', out);
    AloneKept(s, chain', out);
    ExecutedKeptByRequests(links, s, d, chain', out);
    ReceivedKeptByLog(links, s, d, chain', out);
    OnceKeptByIssue(links, s, d, chain', out);
    AllowedDefaults(links, s, d.chain.st.networkId, step);
  }

  lemma ExecuteKeepsSender(links: Links, s: Node, d: Node, step: Step)
    requires Inv(s.chain) && Direction(links, s, d) && Direction(Flip(links), d, s) && step.Execute?
    ensures Direction(links, LocalStep(s, step), d)
  {
    StepsPlain(s, step);
    var (chain', out) := Apply(s.chain, step);
    StepGrows(s.chain, step);
    ExecuteOut(s.chain, step);
    IssuedKept(s, chain', out);
    UniqueKept(s, chain', out);
    AloneKept(s, chain', out);
    ExecutedKept(links, s, d, chain', out, step.reqId, CodeOf(step.dappOk));
    ReceivedKeptByLog(links, s, d, chain', out);
    OnceKeptByIssue(links, s, d, chain', out);
    AllowedDefaults(links, s, d.chain.st.networkId, step);
  }

  /** A step that sends nothing; also the chain that receives a relayed message. */
  lemma QuietKeepsSender(links: Links, s: Node, d: Node, s': Node)
    requires Direction(links, s, d) && Grows(s.chain.h, s'.chain.h)
    requires s'.log == s.log && DefaultsRelayed(links, s', d.chain.st.networkId)
    ensures Direction(links, s', d)
  {
    assert Post(s.log, []) == s.log;
    IssuedKept(s, s'.chain, []);
    UniqueKept(s, s'.chain, []);
    AloneKept(s, s'.chain, []);
    ExecutedKeptByRequests(links, s, d, s'.chain, []);
    OnceKeptByIssue(links, s, d, s'.chain, []);
    assert forall a, k: nat, nid, msg :: Logged(s, a, k, nid, msg) ==> Logged(s', a, k, nid, msg);
  }

  lemma LocalKeepsSender(links: Links, s: Node, d: Node, step: Step)
    requires Inv(s.chain) && Direction(links, s, d) && Direction(Flip(links), d, s)
      && Allowed(links, d.chain.st.networkId, step)
    ensures Direction(links, LocalStep(s, step), d)
  {
    if step.Send? {
      SendKeepsSender(links, s, d, step);
    } else if step.Execute? {
      ExecuteKeepsSender(links, s, d, step);
    } else {
      StepGrows(s.chain, step);
      QuietOut(s.chain, step);
      AllowedDefaults(links, s, d.chain.st.networkId, step);
      QuietKeepsSender(links, s, d, LocalStep(s, step));
    }
  }

  lemma LocalKeepsReceiver(links: Links, s: Node, d: Node, step: Step)
    requires Inv(s.chain) && Direction(Flip(links), d, s) && Allowed(links, d.chain.st.networkId, step)
    ensures Direction(Flip(links), d, LocalStep(s, step))
  {
    var s' := LocalStep(s, step);
    StepGrows(s.chain, step);
    AllowedOutsiders(links, d.chain.st.networkId, s.chain, step, s'.reverted);
    NetworkIdKept(s.chain, step);
    FlipTwice(links);
    ReceiverKeeps(Flip(links), d, s, s');
  }

  lemma LocalKeeps(links: Links, s: Node, d: Node, step: Step)
    requires Inv(s.chain) && Direction(links, s, d) && Direction(Flip(links), d, s)
      && Allowed(links, d.chain.st.networkId, step)
    ensures var s' := LocalStep(s, step); Inv(s'.chain) && Direction(links, s', d) && Direction(Flip(links), d, s')
  {
    StepKeeps(s.chain, step);
    LocalKeepsSender(links, s, d, step);
    LocalKeepsReceiver(links, s, d, step);
  }

  // ---------------------------------------------------------- relayed messages

  lemma RelayRequestEffect(d: Chain, b: Addr, from: Nid, r: CSRequest)
    requires HandleMessage(d.st, b, from, RequestMessage(r)).Ok?
    ensures var d' := Apply(d, Deliver(b, from, RequestMessage(r))).0;
      && d'.h.delivered == d.h.delivered + multiset{(b, r)} && d'.h.results == d.h.results && d'.h.issued == d.h.issued
      && d'.h.defaults == d.h.defaults && d'.st.networkId == d.st.networkId
  {
    var step := Deliver(b, from, RequestMessage(r));
    NetworkIdKept(d, step);
    RequestFrames(d, b, from, r);
    RequestFramesResults(d, b, from, r);
  }

  lemma RelayResultEffect(d: Chain, b: Addr, from: Nid, m: CSResult)
    requires HandleMessage(d.st, b, from, ResultMessage(m)).Ok?
    ensures var d' := Apply(d, Deliver(b, from, ResultMessage(m))).0;
      && d'.h.delivered == d.h.delivered && d'.h.results == d.h.results + {(b, m)} && d'.h.issued == d.h.issued
      && d'.h.defaults == d.h.defaults && d'.st.networkId == d.st.networkId
  {
    var step := Deliver(b, from, ResultMessage(m));
    NetworkIdKept(d, step);
    ResultFrames(d, b, m);
    ResultFramesDefaults(d, b, m);
    HandleResultCases(d, b, m);
    ResultEffect(d, b, m);
  }

  /** `d` accepted entry `k` of `a`'s log, a request, from the peer `b`. */
  ghost predicate AcceptsRequest(s: Node, d: Node, d': Node, a: Addr, b: Addr, k: nat, r: CSRequest) {
    && Logged(s, a, k, d.chain.st.networkId, RequestMessage(r)) && (b, k) !in d.receipts
    && d'.receipts == d.receipts + {(b, k)}
    && d'.chain.h.delivered == d.chain.h.delivered + multiset{(b, r)} && d'.chain.h.results == d.chain.h.results
    && d'.chain.h.issued == d.chain.h.issued && d'.chain.st.networkId == d.chain.st.networkId
    && d'.reverted == d.reverted
  }

  ghost predicate AcceptsResult(s: Node, d: Node, d': Node, a: Addr, b: Addr, k: nat, m: CSResult) {
    && Logged(s, a, k, d.chain.st.networkId, ResultMessage(m)) && d.receipts <= d'.receipts
    && d'.chain.h.delivered == d.chain.h.delivered && d'.chain.h.results == d.chain.h.results + {(b, m)}
    && d'.chain.h.issued == d.chain.h.issued && d'.chain.st.networkId == d.chain.st.networkId
    && d'.reverted == d.reverted
  }

  lemma RelayKeepsReceived(links: Links, s: Node, d: Node, d': Node, a: Addr, b: Addr, k: nat, r: CSRequest)
    requires OneToOne(links) && (a, b) in links && RequestsReceived(links, s, d) && AcceptsRequest(s, d, d', a, b, k, r)
    ensures RequestsReceived(links, s, d')
  {
    forall x, y, q | (x, y) in links && (y, q) in d'.chain.h.delivered
      ensures exists j: nat :: (y, j) in d'.receipts && Logged(s, x, j, d'.chain.st.networkId, RequestMessage(q))
    {
      if (y, q) in d.chain.h.delivered {
        var j: nat :| (y, j) in d.receipts && Logged(s, x, j, d.chain.st.networkId, RequestMessage(q));
        assert (y, j) in d'.receipts;
      } else {
        assert (x, y) == (a, b) && (y, k) in d'.receipts;
      }
    }
  }

  /** The receipt makes the difference: the same request from the same connection is new. */
  lemma RelayIsFirst(links: Links, s: Node, d: Node, a: Addr, b: Addr, k: nat, r: CSRequest)
    requires (a, b) in links && RequestsUnique(s) && RequestsReceived(links, s, d)
    requires Logged(s, a, k, d.chain.st.networkId, RequestMessage(r)) && (b, k) !in d.receipts
    requires r.sn in s.chain.h.issued && NoDup(s.chain.h.issued[r.sn].sources)
    ensures d.chain.h.delivered[(b, r)] == 0
  {
    assert (b, r) !in d.chain.h.delivered;
  }

  lemma RelayKeepsOnce(links: Links, s: Node, d: Node, d': Node, a: Addr, b: Addr, k: nat, r: CSRequest)
    requires OneToOne(links) && (a, b) in links && AcceptsRequest(s, d, d', a, b, k, r)
    requires RequestsUnique(s) && RequestsReceived(links, s, d) && DeliveredOnce(links, s, d)
    ensures DeliveredOnce(links, s, d')
  {
    if r.sn in s.chain.h.issued && NoDup(s.chain.h.issued[r.sn].sources) {
      RelayIsFirst(links, s, d, a, b, k, r);
    }
  }

  lemma RelayKeepsResults(links: Links, s: Node, d: Node, d': Node, a: Addr, b: Addr, k: nat, m: CSResult)
    requires OneToOne(links) && (a, b) in links && ResultsReceived(links, s, d) && AcceptsResult(s, d, d', a, b, k, m)
    ensures ResultsReceived(links, s, d')
  {
    forall x, y, q | (x, y) in links && (y, q) in d'.chain.h.results && !Reverts(d'.reverted, y, q)
      ensures exists j: nat :: Logged(s, x, j, d'.chain.st.networkId, ResultMessage(q))
    {
      if (y, q) !in d.chain.h.results {
        assert (x, y) == (a, b);
      }
    }
  }

  /** Accepting a message concerns what `d` received; the rest of the direction stands. */
  lemma RelayKeepsRest(links: Links, s: Node, d: Node, d': Node)
    requires RequestsIssued(s) && RequestsUnique(s) && RequestsAlone(s)
    requires ResultsExecuted(links, s, d) && DefaultsRelayed(links, s, d.chain.st.networkId)
    requires d'.chain.h.issued == d.chain.h.issued && d'.chain.st.networkId == d.chain.st.networkId
    requires RequestsReceived(links, s, d') && ResultsReceived(links, s, d') && DeliveredOnce(links, s, d')
    ensures Direction(links, s, d')
  {
  }

  lemma RelayAccepts(s: Node, d: Node, a: Addr, b: Addr, k: nat)
    requires RelayStep(d, s, b, a, k) != d
    ensures k < |Lookup(s.log, a)|
    ensures var d', msg := RelayStep(d, s, b, a, k), Lookup(s.log, a)[k].message;
      if msg.RequestMessage? then AcceptsRequest(s, d, d', a, b, k, msg.request)
        else AcceptsResult(s, d, d', a, b, k, msg.result)
  {
    var msg := Lookup(s.log, a)[k].message;
    if msg.RequestMessage? {
      RelayRequestEffect(d.chain, b, s.chain.st.networkId, msg.request);
    } else {
      RelayResultEffect(d.chain, b, s.chain.st.networkId, msg.result);
    }
  }

  lemma ResultsStay(links: Links, s: Node, d: Node, d': Node)
    requires ResultsReceived(links, s, d) && d'.chain.h.results == d.chain.h.results
    requires d'.chain.st.networkId == d.chain.st.networkId && d'.reverted == d.reverted
    ensures ResultsReceived(links, s, d')
  {
  }

  lemma RequestAccepted(links: Links, s: Node, d: Node, d': Node, a: Addr, b: Addr, k: nat, r: CSRequest)
    requires OneToOne(links) && (a, b) in links && Direction(links, s, d) && AcceptsRequest(s, d, d', a, b, k, r)
    ensures Direction(links, s, d')
  {
    RelayKeepsReceived(links, s, d, d', a, b, k, r);
    RelayKeepsOnce(links, s, d, d', a, b, k, r);
    ResultsStay(links, s, d, d');
    RelayKeepsRest(links, s, d, d');
  }

  lemma ResultAccepted(links: Links, s: Node, d: Node, d': Node, a: Addr, b: Addr, k: nat, m: CSResult)
    requires OneToOne(links) && (a, b) in links && Direction(links, s, d) && AcceptsResult(s, d, d', a, b, k, m)
    ensures Direction(links, s, d')
  {
    RelayKeepsResults(links, s, d, d', a, b, k, m);
    RelayKeepsRest(links, s, d, d');
  }

  lemma RelayKeepsReceiver(links: Links, s: Node, d: Node, b: Addr, a: Addr, k: nat)
    requires OneToOne(links) && (a, b) in links && Direction(links, s, d)
    ensures Direction(links, s, RelayStep(d, s, b, a, k))
  {
    var d' := RelayStep(d, s, b, a, k);
    if d' != d {
      RelayAccepts(s, d, a, b, k);
      var msg := Lookup(s.log, a)[k].message;
      if msg.RequestMessage? {
        RequestAccepted(links, s, d, d', a, b, k, msg.request);
      } else {
        ResultAccepted(links, s, d, d', a, b, k, msg.result);
      }
    }
  }

  lemma RelayKeepsSender(links: Links, s: Node, d: Node, b: Addr, a: Addr, k: nat)
    requires Inv(d.chain) && Direction(Flip(links), d, s)
    ensures Inv(RelayStep(d, s, b, a, k).chain) && Direction(Flip(links), RelayStep(d, s, b, a, k), s)
  {
    var d' := RelayStep(d, s, b, a, k);
    if d' != d {
      var msg := Lookup(s.log, a)[k].message;
      var step := Deliver(b, s.chain.st.networkId, msg);
      StepKeeps(d.chain, step);
      StepGrows(d.chain, step);
      if msg.RequestMessage? {
        RelayRequestEffect(d.chain, b, s.chain.st.networkId, msg.request);
      } else {
        RelayResultEffect(d.chain, b, s.chain.st.networkId, msg.result);
      }
      QuietKeepsSender(Flip(links), d, s, d');
    }
  }

  lemma RelayKeeps(links: Links, s: Node, d: Node, b: Addr, a: Addr, k: nat)
    requires OneToOne(links) && (a, b) in links && Inv(d.chain) && Direction(links, s, d)
      && Direction(Flip(links), d, s)
    ensures var d' := RelayStep(d, s, b, a, k);
      Inv(d'.chain) && Direction(links, s, d') && Direction(Flip(links), d', s)
  {
    RelayKeepsSender(links, s, d, b, a, k);
    RelayKeepsReceiver(links, s, d, b, a, k);
  }

  // -------------------------------------------------------------- every run

  ghost predicate WorldInv(links: Links, w: World) {
    && Inv(w.left.chain) && Inv(w.right.chain)
    && Direction(links, w.left, w.right) && Direction(Flip(links), w.right, w.left)
  }

  lemma FlipOneToOne(links: Links)
    requires OneToOne(links)
    ensures OneToOne(Flip(links))
  {
  }

  lemma WorldStepKeeps(links: Links, w: World, s: WorldStep)
    requires OneToOne(links) && WorldInv(links, w) && Enabled(links, w, s)
    ensures WorldInv(links, Next(w, s))
  {
    FlipTwice(links);
    FlipOneToOne(links);
    match s
    case Local(Left, step) => LocalKeeps(links, w.left, w.right, step);
    case Local(Right, step) => LocalKeeps(Flip(links), w.right, w.left, step);
    case Relay(Right, b, a, k) => RelayKeeps(links, w.left, w.right, b, a, k);
    case Relay(Left, b, a, k) =>
      assert (a, b) in Flip(links);
      RelayKeeps(Flip(links), w.right, w.left, b, a, k);
  }

  lemma GenesisOk(links: Links, leftNid: Nid, rightNid: Nid)
    ensures WorldInv(links, Genesis(leftNid, rightNid))
  {
    RunKeeps(leftNid, []);
    RunKeeps(rightNid, []);
  }

  lemma {:induction false} WorldRunKeeps(links: Links, leftNid: Nid, rightNid: Nid, steps: seq<WorldStep>)
    requires OneToOne(links) && AllEnabled(links, Genesis(leftNid, rightNid), steps)
    ensures WorldInv(links, RunWorld(Genesis(leftNid, rightNid), steps))
    decreases |steps|
  {
    if steps == [] {
      GenesisOk(links, leftNid, rightNid);
    } else {
      WorldRunKeeps(links, leftNid, rightNid, steps[..|steps| - 1]);
      WorldStepKeeps(links, RunWorld(Genesis(leftNid, rightNid), steps[..|steps| - 1]), steps[|steps| - 1]);
    }
  }

  // ------------------------------------------------------------- main result

  /** The call goes out over pairwise different connections, at least one of them relayed, or over the
      default one, and comes in over at least one relayed connection, or over the default one if it
      left over one. The other connections on either side may do as they like. */
  ghost predicate Carried(links: Links, call: Issued, other: Nid) {
    && NoDup(call.sources)
    && (if call.sources == [] then call.to.nid == other else exists a :: a in call.sources && Connected(links, a))
    && (if call.request.protocols == [] then |call.sources| <= 1
        else exists b :: b in call.request.protocols && Connected(Flip(links), b))
  }

  /** All the call's relayed connections reverted it, or a default one if it lists none. */
  ghost predicate AllReverted(links: Links, s: Node, sn: nat)
    requires sn in s.chain.h.issued
  {
    var call := s.chain.h.issued[sn];
    if call.sources == [] then exists a :: (call.to.nid, a) in s.chain.h.defaults && (a, sn) in s.reverted
    else forall a :: a in call.sources && Connected(links, a) ==> (a, sn) in s.reverted
  }

  /** What `s` may do about its call `sn`, given what happened on `d`. */
  ghost predicate Atomic(links: Links, s: Node, d: Node, sn: nat)
    requires sn in s.chain.h.issued
  {
    var (hs, hd) := (s.chain.h, d.chain.h);
    var r := hs.issued[sn].request;
    // at most one proxy request was opened for the call, and it was executed at most once
    && hd.openings[r] <= 1
    && (forall i, j ::
          i in hd.origin && j in hd.origin && hd.origin[i] == FromRequest(r) == hd.origin[j] ==> i == j)
    && (forall i :: i in hd.origin && hd.origin[i] == FromRequest(r) ==> hd.commits[i] <= 1)
    // one outcome at most
    && !(Executed(hd, hs, sn, Failure) && Executed(hd, hs, sn, Success))
    // a success only after a successful call, a rollback only after a failed one unless all reverted it, never both
    && (hs.succeeded[sn] > 0 ==> Executed(hd, hs, sn, Success))
    && (hs.rolledBack[sn] > 0 ==> Executed(hd, hs, sn, Failure) || AllReverted(links, s, sn))
    && hs.rolledBack[sn] + hs.succeeded[sn] <= 1
  }

  lemma VerdictExecuted(links: Links, s: Node, d: Node, sn: nat, code: ResponseCode)
    requires ResultsReceived(Flip(links), d, s) && ResultsExecuted(Flip(links), d, s)
    requires DefaultsRelayed(links, s, d.chain.st.networkId)
    requires VerdictIs(s.chain.h, sn, code) && Carried(links, s.chain.h.issued[sn], d.chain.st.networkId)
    ensures (code == Failure && AllReverted(links, s, sn)) || Executed(d.chain.h, s.chain.h, sn, code)
  {
    var h, call, m := s.chain.h, s.chain.h.issued[sn], s.chain.h.verdict[sn];
    if call.sources == [] {
      var a :| (call.to.nid, a) in h.defaults && (a, m) in h.results;
      DeliveredIsExecuted(links, s, d, a, m);
    } else {
      var a :| a in call.sources && Connected(links, a);
      DeliveredIsExecuted(links, s, d, a, m);
      forall b | b in call.sources && Connected(links, b) && !Executed(d.chain.h, h, sn, code)
        ensures Reverts(s.reverted, b, m)
      {
        DeliveredIsExecuted(links, s, d, b, m);
      }
    }
  }

  /** What a default connection delivered is in its peer's log. */
  lemma DefaultDelivered(links: Links, s: Node, d: Node, r: CSRequest, b: Addr) returns (a: Addr, k: nat)
    requires RequestsReceived(links, s, d) && DefaultsRelayed(Flip(links), d, s.chain.st.networkId)
    requires DefaultDeliveries(d.chain.h) && (b, r) in d.chain.h.delivered
    requires r.protocols == [] && r.from.nid == s.chain.st.networkId
    ensures (a, b) in links && Connected(Flip(links), b) && Logged(s, a, k, d.chain.st.networkId, RequestMessage(r))
  {
    hide Logged;
    assert (r.from.nid, b) in d.chain.h.defaults;
    a :| (b, a) in Flip(links);
    assert (a, b) in links;
    k :| (b, k) in d.receipts && Logged(s, a, k, d.chain.st.networkId, RequestMessage(r));
  }

  /** A call that left over one connection and lists no protocols is delivered by one connection. */
  lemma OneDeliverer(links: Links, s: Node, d: Node, r: CSRequest, a: Addr, b: Addr)
    requires OneToOne(links) && RequestsAlone(s) && RequestsReceived(links, s, d)
    requires DefaultsRelayed(Flip(links), d, s.chain.st.networkId) && DefaultDeliveries(d.chain.h)
    requires r.sn in s.chain.h.issued && |s.chain.h.issued[r.sn].sources| <= 1
    requires r.protocols == [] && r.from.nid == s.chain.st.networkId
    requires (a, r) in d.chain.h.delivered && (b, r) in d.chain.h.delivered
    ensures a == b && Connected(Flip(links), a)
  {
    hide RequestsReceived, DefaultsRelayed, DefaultDeliveries, Connected;
    var x, i := DefaultDelivered(links, s, d, r, a);
    var y, j := DefaultDelivered(links, s, d, r, b);
    assert x == y;
  }

  lemma OpenedOnce(links: Links, s: Node, d: Node, sn: nat)
    requires OneToOne(links) && DeliveredOnce(links, s, d) && QuorumAccounting(d.chain) && DefaultDeliveries(d.chain.h)
    requires RequestsAlone(s) && RequestsReceived(links, s, d) && DefaultsRelayed(Flip(links), d, s.chain.st.networkId)
    requires sn in s.chain.h.issued && Carried(links, s.chain.h.issued[sn], d.chain.st.networkId)
    requires s.chain.h.issued[sn].request.sn == sn && s.chain.h.issued[sn].request.from.nid == s.chain.st.networkId
    ensures d.chain.h.openings[s.chain.h.issued[sn].request] <= 1
  {
    var h, r := d.chain.h, s.chain.h.issued[sn].request;
    if r.protocols != [] {
      var b :| b in r.protocols && Connected(Flip(links), b);
      RelayedOnce(links, s, d, r, b);
    } else if exists a :: (a, r) in h.delivered {
      var a :| (a, r) in h.delivered;
      forall b | (b, r) in h.delivered ensures b == a && Connected(Flip(links), a) {
        OneDeliverer(links, s, d, r, a, b);
      }
      assert OnlyBy(h, r, a);
      RelayedOnce(links, s, d, r, a);
    } else {
      assert OnlyBy(h, r, []);
    }
  }

  lemma RelayedOnce(links: Links, s: Node, d: Node, r: CSRequest, b: Addr)
    requires DeliveredOnce(links, s, d) && Connected(Flip(links), b)
    requires r.sn in s.chain.h.issued && s.chain.h.issued[r.sn].request == r && NoDup(s.chain.h.issued[r.sn].sources)
    ensures d.chain.h.delivered[(b, r)] <= 1
  {
    var a :| (b, a) in Flip(links);
    assert (a, b) in links;
  }

  /** One opening, one request id; so at most one outcome. */
  lemma OneOutcome(d: History, s: History, sn: nat)
    requires sn in s.issued && OriginsCounted(d) && d.openings[s.issued[sn].request] <= 1
    ensures var r := FromRequest(s.issued[sn].request);
      forall i, j :: i in d.origin && j in d.origin && d.origin[i] == r && d.origin[j] == r ==> i == j
    ensures !(Executed(d, s, sn, Failure) && Executed(d, s, sn, Success))
  {
  }

  lemma AtomicHere(links: Links, s: Node, d: Node, sn: nat)
    requires OneToOne(links) && Inv(s.chain) && Inv(d.chain) && Direction(links, s, d) && Direction(Flip(links), d, s)
    requires sn in s.chain.h.issued && Carried(links, s.chain.h.issued[sn], d.chain.st.networkId)
    ensures Atomic(links, s, d, sn)
  {
    OpenedOnce(links, s, d, sn);
    OneOutcome(d.chain.h, s.chain.h, sn);
    if s.chain.h.rolledBack[sn] > 0 {
      VerdictExecuted(links, s, d, sn, Failure);
    }
    if s.chain.h.succeeded[sn] > 0 {
      VerdictExecuted(links, s, d, sn, Success);
    }
  }

  /** Cross-chain atomicity, for every run, in both directions, whatever outsiders inject. */
  lemma CrossChainAtomicity(links: Links, leftNid: Nid, rightNid: Nid, steps: seq<WorldStep>, sn: nat)
    requires OneToOne(links) && AllEnabled(links, Genesis(leftNid, rightNid), steps)
    ensures var w := RunWorld(Genesis(leftNid, rightNid), steps);
      var (l, r) := (w.left.chain.h, w.right.chain.h);
      && (sn in l.issued && Carried(links, l.issued[sn], rightNid) ==> Atomic(links, w.left, w.right, sn))
      && (sn in r.issued && Carried(Flip(links), r.issued[sn], leftNid) ==> Atomic(Flip(links), w.right, w.left, sn))
  {
    hide Atomic, Carried, Direction, Inv, RunWorld, AllEnabled;
    var w := RunWorld(Genesis(leftNid, rightNid), steps);
    WorldRunKeeps(links, leftNid, rightNid, steps);
    NidsKept(leftNid, rightNid, steps);
    FlipTwice(links);
    FlipOneToOne(links);
    if sn in w.left.chain.h.issued && Carried(links, w.left.chain.h.issued[sn], rightNid) {
      AtomicHere(links, w.left, w.right, sn);
    }
    if sn in w.right.chain.h.issued && Carried(Flip(links), w.right.chain.h.issued[sn], leftNid) {
      AtomicHere(Flip(links), w.right, w.left, sn);
    }
  }

  // ------------------------------------------------- what is executed is what was sent

  function At(w: World, side: Side): Node { if side.Left? then w.left else w.right }

  function Across(side: Side): Side { if side.Left? then Right else Left }

  function LinksOf(links: Links, side: Side): Links { if side.Left? then links else Flip(links) }

  lemma NextGrows(links: Links, w: World, s: WorldStep, side: Side)
    requires WorldInv(links, w)
    ensures Grows(At(w, side).chain.h, At(Next(w, s), side).chain.h)
  {
    hide Inv, Direction, Apply, HandleMessage;
    var c := At(w, side).chain;
    GrowsFrom(c.h);
    match s
    case Local(_, step) => StepGrows(c, step);
    case Relay(_, b, a, k) =>
      var entries := Lookup(At(w, Across(side)).log, a);
      if k < |entries| {
        StepGrows(c, Deliver(b, At(w, Across(side)).chain.st.networkId, entries[k].message));
      }
  }

  lemma GrowsFrom(h: History)
    ensures Grows(h, h)
  {
  }

  lemma {:induction false} WorldGrows(links: Links, leftNid: Nid, rightNid: Nid, steps: seq<WorldStep>,
      more: seq<WorldStep>, side: Side)
    requires OneToOne(links) && AllEnabled(links, Genesis(leftNid, rightNid), steps + more)
    ensures var g := Genesis(leftNid, rightNid);
      Grows(At(RunWorld(g, steps), side).chain.h, At(RunWorld(g, steps + more), side).chain.h)
    decreases |more|
  {
    hide Next, Enabled, Grows, WorldInv;
    var g := Genesis(leftNid, rightNid);
    if more == [] {
      assert steps + more == steps;
      GrowsFrom(At(RunWorld(g, steps), side).chain.h);
    } else {
      var front, last := more[..|more| - 1], more[|more| - 1];
      assert (steps + more)[..|steps + more| - 1] == steps + front;
      WorldGrows(links, leftNid, rightNid, steps, front, side);
      WorldRunKeeps(links, leftNid, rightNid, steps + front);
      NextGrows(links, RunWorld(g, steps + front), last, side);
      GrowsOn(At(RunWorld(g, steps), side).chain.h, At(RunWorld(g, steps + front), side).chain.h,
        At(RunWorld(g, steps + more), side).chain.h);
    }
  }

  /** A proxy request that claims to stand for the call with number `sn` of the other chain and
      names a relayed connection, or none. */
  ghost predicate Claims(links: Links, proxy: ProxyRequest, nid: Nid, sn: nat) {
    && proxy.from.nid == nid && proxy.sn == sn
    && (proxy.protocols == [] || exists b :: b in proxy.protocols && Connected(links, b))
  }

  /** A proxy request without connections was opened by a default one, which is relayed. */
  lemma RelayedDefault(links: Links, s: Node, d: Node, id: nat)
    requires Inv(d.chain) && DefaultsRelayed(Flip(links), d, s.chain.st.networkId)
    requires id in d.chain.st.proxyRequests && d.chain.st.proxyRequests[id].protocols == []
    requires d.chain.st.proxyRequests[id].from.nid == s.chain.st.networkId
    ensures exists b :: Connected(Flip(links), b)
  {
    var h := d.chain.h;
    assert ProxyOf(h, h.origin[id], d.chain.st.proxyRequests[id]);
    match h.origin[id]
    case FromRequest(r) =>
      assert h.openings[r] >= 1;
      var e :| (r.from.nid, e) in h.defaults && (e, r) in h.delivered;
      assert Connected(Flip(links), e);
    case FromReply(m) =>
      assert ReplyBacked(h, h.origin[id]);
      var e :| (h.issued[m.sn].to.nid, e) in h.defaults && (e, m) in h.results;
      assert Connected(Flip(links), e);
  }

  lemma ClaimGenuine(links: Links, s: Node, d: Node, id: nat, sn: nat)
    requires Inv(d.chain) && Direction(links, s, d) && Direction(Flip(links), d, s)
    requires id in d.chain.st.proxyRequests
    requires Claims(Flip(links), d.chain.st.proxyRequests[id], s.chain.st.networkId, sn)
    ensures sn in s.chain.h.issued
    ensures var r := s.chain.h.issued[sn].request; d.chain.st.proxyRequests[id] == Proxy(r, r.protocols)
  {
    FlipTwice(links);
    var proxy := d.chain.st.proxyRequests[id];
    if proxy.protocols == [] { RelayedDefault(links, s, d, id); }
    var b :| Connected(Flip(links), b) && (proxy.protocols == [] || b in proxy.protocols);
    OriginGenuine(Flip(links), d, s, id, b);
    assert ProxyOf(d.chain.h, d.chain.h.origin[id], proxy);
  }

  /** End to end, for every run: when a call was sent and, any number of steps later, the other chain
      executes a request that claims to be it, the dapp gets the sender, the account, the kind of call,
      the data and the connections of that very send, whatever outsiders inject in between. */
  lemma ExecutedAsSent(links: Links, leftNid: Nid, rightNid: Nid, side: Side, before: seq<WorldStep>, call: Step,
      after: seq<WorldStep>, id: nat, data: bytes, dappOk: bool)
    requires OneToOne(links) && call.Send?
    requires AllEnabled(links, Genesis(leftNid, rightNid), before + [Local(side, call)] + after)
    requires var st := At(RunWorld(Genesis(leftNid, rightNid), before), side).chain.st;
      var dst := At(RunWorld(Genesis(leftNid, rightNid), before + [Local(side, call)] + after), Across(side)).chain.st;
      && SendCall(st, call.sender, call.isContract, call.envelope, call.to, call.encodedSize).Ok?
      && ExecuteCall(dst, id, data, dappOk).Ok?
      && Claims(LinksOf(links, Across(side)), dst.proxyRequests[id], if side.Left? then leftNid
           else rightNid, st.sn + 1)
    ensures var dst := At(RunWorld(Genesis(leftNid, rightNid), before + [Local(side, call)] + after),
      Across(side)).chain.st;
      var executed := dst.proxyRequests[id];
      && data == call.envelope.message.data && executed.msgType == call.envelope.message.Type()
      && executed.from.account == call.sender && executed.to == call.to.account
      && executed.protocols == call.envelope.destinations
  {
    hide SendCall, ExecuteCall, WorldInv, Direction, Inv, Next, Enabled, AllEnabled, RunWorld, Claims;
    var w := RunWorld(Genesis(leftNid, rightNid), before + [Local(side, call)] + after);
    CallStaysIssued(links, leftNid, rightNid, side, before, call, after);
    NidsKept(leftNid, rightNid, before);
    NidsKept(leftNid, rightNid, before + [Local(side, call)] + after);
    ExecutesData(At(w, Across(side)).chain.st, id, data, dappOk);
    ClaimHolds(links, leftNid, rightNid, side, before + [Local(side, call)] + after, id,
      At(RunWorld(Genesis(leftNid, rightNid), before), side).chain.st.sn + 1);
  }

  lemma ExecutesData(st: State, id: nat, data: bytes, dappOk: bool)
    requires ExecuteCall(st, id, data, dappOk).Ok?
    ensures id in st.proxyRequests && st.proxyRequests[id].data == Keccak(data)
  {
  }

  lemma CallStaysIssued(links: Links, leftNid: Nid, rightNid: Nid, side: Side, before: seq<WorldStep>, call: Step,
      after: seq<WorldStep>)
    requires OneToOne(links) && call.Send?
    requires AllEnabled(links, Genesis(leftNid, rightNid), before + [Local(side, call)] + after)
    requires var st := At(RunWorld(Genesis(leftNid, rightNid), before), side).chain.st;
      SendCall(st, call.sender, call.isContract, call.envelope, call.to, call.encodedSize).Ok?
    ensures var st := At(RunWorld(Genesis(leftNid, rightNid), before), side).chain.st;
      var h := At(RunWorld(Genesis(leftNid, rightNid), before + [Local(side, call)] + after), side).chain.h;
      && st.sn + 1 in h.issued
      && h.issued[st.sn + 1].request == CSRequest(NetworkAddress(st.networkId, call.sender), call.to.account, st.sn + 1,
           call.envelope.message.Type(), call.envelope.message.data, call.envelope.destinations)
  {
    hide SendCall, Next, Enabled, AllEnabled;
    var g := Genesis(leftNid, rightNid);
    var upto := before + [Local(side, call)];
    assert upto[..|upto| - 1] == before;
    assert RunWorld(g, upto) == Next(RunWorld(g, before), Local(side, call));
    SendRecorded(RunWorld(g, before), side, call);
    WorldGrows(links, leftNid, rightNid, upto, after, side);
  }

  lemma ClaimHolds(links: Links, leftNid: Nid, rightNid: Nid, side: Side, steps: seq<WorldStep>, id: nat, sn: nat)
    requires OneToOne(links) && AllEnabled(links, Genesis(leftNid, rightNid), steps)
    requires var w := RunWorld(Genesis(leftNid, rightNid), steps);
      && id in At(w, Across(side)).chain.st.proxyRequests
      && Claims(LinksOf(links, Across(side)), At(w, Across(side)).chain.st.proxyRequests[id],
           At(w, side).chain.st.networkId, sn)
    ensures var w := RunWorld(Genesis(leftNid, rightNid), steps);
      && sn in At(w, side).chain.h.issued
      && (var r := At(w, side).chain.h.issued[sn].request;
          At(w, Across(side)).chain.st.proxyRequests[id] == Proxy(r, r.protocols))
  {
    hide Direction, Inv, RunWorld, AllEnabled, Claims;
    var w := RunWorld(Genesis(leftNid, rightNid), steps);
    WorldRunKeeps(links, leftNid, rightNid, steps);
    FlipTwice(links);
    ClaimGenuine(LinksOf(links, side), At(w, side), At(w, Across(side)), id, sn);
  }

  lemma SendRecorded(w: World, side: Side, call: Step)
    requires var st := At(w, side).chain.st;
      call.Send? && SendCall(st, call.sender, call.isContract, call.envelope, call.to, call.encodedSize).Ok?
    ensures var st, h := At(w, side).chain.st, At(Next(w, Local(side, call)), side).chain.h;
      && st.sn + 1 in h.issued
      && h.issued[st.sn + 1].request == CSRequest(NetworkAddress(st.networkId, call.sender), call.to.account, st.sn + 1,
           call.envelope.message.Type(), call.envelope.message.data, call.envelope.destinations)
  {
  }

  lemma {:induction false} NidsKept(leftNid: Nid, rightNid: Nid, steps: seq<WorldStep>)
    ensures var w := RunWorld(Genesis(leftNid, rightNid), steps);
      w.left.chain.st.networkId == leftNid && w.right.chain.st.networkId == rightNid
    decreases |steps|
  {
    hide Apply, HandleMessage;
    if steps != [] {
      NidsKept(leftNid, rightNid, steps[..|steps| - 1]);
      var w, s := RunWorld(Genesis(leftNid, rightNid), steps[..|steps| - 1]), steps[|steps| - 1];
      forall c, step ensures Apply(c, step).0.st.networkId == c.st.networkId { NetworkIdKept(c, step); }
    }
  }

  // --------------------------------------------------------- what reverts can do

  lemma {:induction false} RunConcat(links: Links, w: World, a: seq<WorldStep>, b: seq<WorldStep>)
    requires AllEnabled(links, w, a) && AllEnabled(links, RunWorld(w, a), b)
    ensures AllEnabled(links, w, a + b) && RunWorld(w, a + b) == RunWorld(RunWorld(w, a), b)
    decreases |b|
  {
    hide Next, Enabled;
    if b == [] {
      assert a + b == a;
    } else {
      RunConcat(links, w, a, b[..|b| - 1]);
      assert (a + b)[..|a + b| - 1] == a + b[..|b| - 1];
    }
  }

  lemma RunOne(links: Links, w: World, s: WorldStep)
    requires Enabled(links, w, s)
    ensures AllEnabled(links, w, [s]) && RunWorld(w, [s]) == Next(w, s)
  {
    hide Next, Enabled;
    assert [s][..0] == [];
  }

  /** Entries over different connections are alone in their logs. */
  lemma {:induction false} PostEach(out: seq<Outgoing>, i: nat)
    requires i < |out| && forall j, k :: 0 <= j < k < |out| ==> out[j].connection != out[k].connection
    ensures Lookup(Post(map[], out), out[i].connection) == [out[i]]
    decreases |out|
  {
    var front := out[..|out| - 1];
    PostOnce(map[], front, out[i].connection);
    if i < |front| { PostEach(front, i); }
  }

  // Both chains have default connections; the call is sent.

  lemma AfterSetDefault(n: Node, other: Nid, a: Addr)
    requires n == Node(Start(n.chain.st.networkId), map[], {}, {})
    ensures var n' := LocalStep(n, SetDefault(other, a));
      && n'.chain.st == n.chain.st.(defaultConnections := map[other := a])
      && n'.chain.h == n.chain.h.(defaults := {(other, a)}) && n'.log == map[] && n'.receipts == {}
  {
  }

  /** The connections a call leaves or enters over: those listed, or the default one. */
  function Listed(connections: seq<Addr>, default: Addr): seq<Addr> {
    if connections == [] then [default] else connections
  }

  datatype Parties = Parties(leftNid: Nid, rightNid: Nid, sender: Addr, account: Addr, a: Addr, b: Addr)

  function CallOver(who: Parties, sources: seq<Addr>, protocols: seq<Addr>, data: bytes, rollback: bytes): (s: Step)
    ensures s.Send?
  {
    var message := CallMessageWithRollback(data, rollback);
    Send(who.sender, true, Envelope(message, sources, protocols), NetworkAddress(who.rightNid, who.account), 0)
  }

  function RecordOf(who: Parties, sources: seq<Addr>, rollback: bytes): Rollback {
    Rollback(who.sender, NetworkAddress(who.rightNid, who.account), sources, rollback, false)
  }

  function RequestOf(who: Parties, protocols: seq<Addr>, data: bytes): CSRequest {
    CSRequest(NetworkAddress(who.leftNid, who.sender), who.account, 1, CallWithRollback, data, protocols)
  }

  /** The source after the call was sent: its record, its request, and the request in every log. */
  ghost predicate SentOver(n: Node, who: Parties, record: Rollback, r: CSRequest) {
    && n.chain.st.rollbacks == map[1 := record] && n.chain.st.pendingResponses == map[]
    && n.chain.st.defaultConnections == map[who.rightNid := who.a] && n.chain.st.networkId == who.leftNid
    && n.chain.h.issued == map[1 := Issued(r, record.protocols, NetworkAddress(who.rightNid, who.account))]
    && n.chain.h.rolledBack == multiset{}
    && (NoDup(record.protocols) ==>
          forall x :: x in Listed(record.protocols, who.a) ==>
            Lookup(n.log, x) == [Outgoing(x, who.rightNid, RequestMessage(r))])
  }

  lemma AfterSend(n: Node, who: Parties, sources: seq<Addr>, protocols: seq<Addr>, data: bytes, rollback: bytes)
    requires n.chain.st == Initial(who.leftNid).(defaultConnections := map[who.rightNid := who.a])
    requires n.chain.h.issued == map[] && n.chain.h.rolledBack == multiset{} && n.log == map[]
    requires 0 < |rollback| <= MAX_ROLLBACK_SIZE && AllAddresses(Listed(sources, who.a))
    ensures SentOver(LocalStep(n, CallOver(who, sources, protocols, data, rollback)), who,
      RecordOf(who, sources, rollback), RequestOf(who, protocols, data))
  {
    var out := Apply(n.chain, CallOver(who, sources, protocols, data, rollback)).1;
    var route := Listed(sources, who.a);
    var r := RequestOf(who, protocols, data);
    assert |out| == |route| && forall i :: 0 <= i < |out| ==>
      out[i] == Outgoing(route[i], who.rightNid, RequestMessage(r));
    if NoDup(sources) {
      assert NoDup(route);
      forall x | x in route ensures Lookup(Post(map[], out), x) == [Outgoing(x, who.rightNid, RequestMessage(r))] {
        var i :| 0 <= i < |route| && route[i] == x;
        PostEach(out, i);
      }
    }
  }

  // It is delivered, connection by connection.

  /** The destination after the first `i` connections, not all, have delivered the request. */
  ghost predicate Arrived(c: Chain, who: Parties, r: CSRequest, i: nat)
    requires i < |Listed(r.protocols, who.b)|
  {
    && c.st.lastReqId == 0 && c.st.proxyRequests == map[] && c.st.networkId == who.rightNid
    && c.st.pendingRequests == (if i == 0 then map[] else map[Keccak(r) := r.protocols[..i]])
    && c.st.defaultConnections == map[who.leftNid := who.b]
    && c.h.origin == map[] && c.h.outcome == map[]
  }

  /** The destination after all have: one proxy request, not yet executed. */
  ghost predicate Ready(c: Chain, who: Parties, r: CSRequest) {
    && c.st.proxyRequests == map[1 := Proxy(r, r.protocols)] && c.st.defaultConnections == map[who.leftNid := who.b]
    && c.h.origin == map[1 := FromRequest(r)] && c.h.outcome == map[]
  }

  ghost predicate ArrivedOrReady(c: Chain, who: Parties, r: CSRequest, i: nat) {
    var n := |Listed(r.protocols, who.b)|;
    if i < n then Arrived(c, who, r, i) else Ready(c, who, r)
  }

  lemma RequestTaken(st: State, who: Parties, r: CSRequest, i: nat)
    requires NoDup(r.protocols) && i < |Listed(r.protocols, who.b)| && r.from.nid == who.leftNid
    requires st.lastReqId == 0 && st.defaultConnections == map[who.leftNid := who.b]
    requires st.pendingRequests == (if i == 0 then map[] else map[Keccak(r) := r.protocols[..i]])
    ensures HandleRequest(st, Listed(r.protocols, who.b)[i], who.leftNid, r) == Ok(
      if i + 1 < |r.protocols| then st.(pendingRequests := map[Keccak(r) := r.protocols[..i + 1]])
      else OpenProxy(st.(pendingRequests := map[]), Proxy(r, r.protocols)))
  {
    if r.protocols == [] {
      assert st.(pendingRequests := map[]) == st;
    } else {
      var b := r.protocols[i];
      assert b !in r.protocols[..i];
      assert r.protocols[..i] + [b] == r.protocols[..i + 1];
      assert Register(Lookup(st.pendingRequests, Keccak(r)), b) == r.protocols[..i + 1];
      assert st.pendingRequests - {Keccak(r)} == map[];
      assert st.pendingRequests[Keccak(r) := r.protocols[..i + 1]] == map[Keccak(r) := r.protocols[..i + 1]];
    }
  }

  lemma ArrivesNext(c: Chain, who: Parties, r: CSRequest, i: nat)
    requires NoDup(r.protocols) && i < |Listed(r.protocols, who.b)| && Arrived(c, who, r, i)
    requires r.from.nid == who.leftNid != who.rightNid
    ensures var x, msg := Listed(r.protocols, who.b)[i], RequestMessage(r);
      && HandleMessage(c.st, x, who.leftNid, msg).Ok?
      && ArrivedOrReady(Apply(c, Deliver(x, who.leftNid, msg)).0, who, r, i + 1)
  {
    hide HandleRequest;
    RequestTaken(c.st, who, r, i);
  }

  /** Who delivers: a relayed connection from its peer's log, anybody else in its own name. */
  ghost predicate Deliverable(links: Links, who: Parties, sources: seq<Addr>, protocols: seq<Addr>) {
    forall x :: x in Listed(protocols, who.b) && Connected(Flip(links), x) ==>
      exists y :: y in Listed(sources, who.a) && (y, x) in links
  }

  lemma {:induction false} AllArrive(links: Links, w: World, who: Parties, record: Rollback, r: CSRequest, n: nat)
    returns (steps: seq<WorldStep>)
    requires NoDup(r.protocols) && NoDup(record.protocols) && n <= |Listed(r.protocols, who.b)|
    requires Deliverable(links, who, record.protocols, r.protocols) && r.from.nid == who.leftNid != who.rightNid
    requires SentOver(w.left, who, record, r) && Arrived(w.right.chain, who, r, 0) && w.right.receipts == {}
    ensures var w' := RunWorld(w, steps);
      && AllEnabled(links, w, steps) && w'.left == w.left && ArrivedOrReady(w'.right.chain, who, r, n)
      && (forall p :: p in w'.right.receipts ==> p.0 in Listed(r.protocols, who.b)[..n])
      && w'.right.log == w.right.log && NoSends(steps)
    decreases n
  {
    hide Arrived, Ready, Apply, HandleMessage, NoDup;
    if n == 0 {
      steps := [];
    } else {
      var front := AllArrive(links, w, who, record, r, n - 1);
      var w1 := RunWorld(w, front);
      var entering := Listed(r.protocols, who.b);
      var x := entering[n - 1];
      ArrivesNext(w1.right.chain, who, r, n - 1);
      NotYet(r.protocols, who.b, n - 1);
      var step := Local(Right, Deliver(x, who.leftNid, RequestMessage(r)));
      if Connected(Flip(links), x) {
        var y :| y in Listed(record.protocols, who.a) && (y, x) in links;
        step := Relay(Right, x, y, 0);
        ArrivedNid(w1.right.chain, who, r, n - 1);
        RelayDelivers(w1.right, w1.left, x, y, RequestMessage(r));
      } else {
        DeliverPostsNothing(w1.right, step.step);
      }
      steps := front + [step];
      RunOne(links, w1, step);
      RunConcat(links, w, front, [step]);
      assert entering[..n] == entering[..n - 1] + [x];
    }
  }

  lemma NotYet(connections: seq<Addr>, default: Addr, i: nat)
    requires NoDup(connections) && i < |Listed(connections, default)|
    ensures Listed(connections, default)[i] !in Listed(connections, default)[..i]
  {
  }

  lemma ArrivedNid(c: Chain, who: Parties, r: CSRequest, i: nat)
    requires i < |Listed(r.protocols, who.b)| && Arrived(c, who, r, i)
    ensures c.st.networkId == who.rightNid
  {
  }

  lemma RelayDelivers(d: Node, s: Node, b: Addr, a: Addr, msg: CSMessage)
    requires Lookup(s.log, a) == [Outgoing(a, d.chain.st.networkId, msg)] && (b, 0) !in d.receipts
    requires HandleMessage(d.chain.st, b, s.chain.st.networkId, msg).Ok?
    ensures var d' := RelayStep(d, s, b, a, 0);
      && d'.chain == Apply(d.chain, Deliver(b, s.chain.st.networkId, msg)).0 && d'.receipts == d.receipts + {(b, 0)}
      && d'.log == d.log
  {
    hide HandleMessage, Apply;
  }

  lemma DeliverPostsNothing(n: Node, step: Step)
    requires step.Deliver?
    ensures LocalStep(n, step).log == n.log
  {
    hide Apply;
    QuietOut(n.chain, step);
  }

  /** Nothing is sent along the way but answers. */
  predicate NoSends(steps: seq<WorldStep>) { forall s :: s in steps && s.Local? ==> !s.step.Send? }

  lemma AfterExecute(d: Node, who: Parties, r: CSRequest)
    requires Ready(d.chain, who, r) && r.msgType == CallWithRollback && r.from.nid == who.leftNid
    requires IsAddress(r.to) && AllAddresses(Listed(r.protocols, who.b))
    ensures var d' := LocalStep(d, Execute(1, r.data, true));
      d'.chain.h.outcome == map[1 := Success] && d'.chain.h.origin == map[1 := FromRequest(r)]
  {
    hide SendVia;
  }

  // It is reverted, connection by connection, and rolled back.

  /** The source after the first `i` connections have reverted. */
  ghost predicate Reverting(n: Node, record: Rollback, a: Addr, i: nat)
    requires i <= |Listed(record.protocols, a)|
  {
    if i < |Listed(record.protocols, a)| then
      && n.chain.st.rollbacks == map[1 := record] && n.chain.st.defaultConnections == map[record.to.nid := a]
      && n.chain.st.pendingResponses ==
           (if i == 0 then map[] else map[Keccak(RevertResult(1)) := record.protocols[..i]])
    else n.chain.st.rollbacks == map[1 := record.(enabled := true)]
  }

  /** What the contract makes of the next revert. */
  lemma RevertTaken(st: State, record: Rollback, a: Addr, i: nat)
    requires NoDup(record.protocols) && i < |Listed(record.protocols, a)|
    requires st.rollbacks == map[1 := record] && st.defaultConnections == map[record.to.nid := a]
    requires st.pendingResponses == (if i == 0 then map[] else map[Keccak(RevertResult(1)) := record.protocols[..i]])
    ensures HandleError(st, Listed(record.protocols, a)[i], 1) == Ok(
      if i + 1 < |record.protocols|
      then st.(pendingResponses := map[Keccak(RevertResult(1)) := record.protocols[..i + 1]])
      else st.(pendingResponses := map[], rollbacks := map[1 := record.(enabled := true)]))
  {
    var key := Keccak(RevertResult(1));
    assert st.rollbacks[1 := record.(enabled := true)] == map[1 := record.(enabled := true)];
    if record.protocols == [] {
      assert st.(pendingResponses := map[]) == st;
    } else {
      var x := record.protocols[i];
      assert x !in record.protocols[..i];
      assert record.protocols[..i] + [x] == record.protocols[..i + 1];
      assert Register(Lookup(st.pendingResponses, key), x) == record.protocols[..i + 1];
      assert st.pendingResponses - {key} == map[];
      assert st.pendingResponses[key := record.protocols[..i + 1]] == map[key := record.protocols[..i + 1]];
    }
  }

  lemma RevertsNext(n: Node, record: Rollback, a: Addr, i: nat)
    requires NoDup(record.protocols) && i < |Listed(record.protocols, a)| && Reverting(n, record, a, i)
    ensures var n' := LocalStep(n, Revert(Listed(record.protocols, a)[i], 1));
      && Reverting(n', record, a, i + 1)
      && n'.chain.h.issued == n.chain.h.issued && n'.chain.h.rolledBack == n.chain.h.rolledBack
  {
    hide HandleError;
    RevertTaken(n.chain.st, record, a, i);
  }

  lemma {:induction false} AllRevert(links: Links, w: World, record: Rollback, a: Addr, n: nat)
      returns (steps: seq<WorldStep>)
    requires NoDup(record.protocols) && n <= |Listed(record.protocols, a)| && Reverting(w.left, record, a, 0)
    ensures var w' := RunWorld(w, steps);
      && AllEnabled(links, w, steps) && w'.right == w.right && Reverting(w'.left, record, a, n)
      && w'.left.chain.h.issued == w.left.chain.h.issued && w'.left.chain.h.rolledBack == w.left.chain.h.rolledBack
    decreases n
  {
    hide Reverting, LocalStep, NoDup;
    if n == 0 {
      steps := [];
    } else {
      var front := AllRevert(links, w, record, a, n - 1);
      var w1 := RunWorld(w, front);
      var step := Local(Left, Revert(Listed(record.protocols, a)[n - 1], 1));
      RevertsNext(w1.left, record, a, n - 1);
      RunOne(links, w1, step);
      RunConcat(links, w, front, [step]);
      steps := front + [step];
    }
  }

  lemma AfterRollback(n: Node, record: Rollback)
    requires n.chain.st.rollbacks == map[1 := record.(enabled := true)]
    ensures var n' := LocalStep(n, RunRollback(1, true));
      n'.chain.h.rolledBack == n.chain.h.rolledBack + multiset{1} && n'.chain.h.issued == n.chain.h.issued
  {
  }

  lemma StartsReverting(n: Node, who: Parties, record: Rollback, r: CSRequest)
    requires SentOver(n, who, record, r) && record.to.nid == who.rightNid
    ensures Reverting(n, record, who.a, 0)
  {
  }

  lemma EndsReverting(n: Node, record: Rollback, a: Addr)
    requires Reverting(n, record, a, |Listed(record.protocols, a)|)
    ensures n.chain.st.rollbacks == map[1 := record.(enabled := true)]
  {
  }

  // The whole run.

  lemma {:induction false} RunEach(links: Links, w: World, steps: seq<WorldStep>, ws: seq<World>)
    requires |ws| == |steps| + 1 && ws[0] == w
    requires forall i :: 0 <= i < |steps| ==> Enabled(links, ws[i], steps[i]) && ws[i + 1] == Next(ws[i], steps[i])
    ensures AllEnabled(links, w, steps) && RunWorld(w, steps) == ws[|steps|]
    decreases |steps|
  {
    hide Next, Enabled;
    if steps != [] {
      RunEach(links, w, steps[..|steps| - 1], ws[..|steps|]);
    }
  }

  lemma SendLeaves(n: Node, step: Step)
    requires step.Send?
    ensures LocalStep(n, step).chain.h.succeeded == n.chain.h.succeeded && LocalStep(n, step).receipts == n.receipts
  {
    hide Post;
  }

  function BeginWith(who: Parties, call: Step): seq<WorldStep> {
    [Local(Left, SetDefault(who.rightNid, who.a)), Local(Right, SetDefault(who.leftNid, who.b)), Local(Left, call)]
  }

  /** Both defaults set, and the call sent. */
  lemma Begun(links: Links, who: Parties, sources: seq<Addr>, protocols: seq<Addr>, data: bytes, rollback: bytes)
    returns (steps: seq<WorldStep>)
    requires (who.a, who.b) in links && who.leftNid != who.rightNid && 0 < |rollback| <= MAX_ROLLBACK_SIZE
    requires AllAddresses(Listed(sources, who.a))
    ensures var w := RunWorld(Genesis(who.leftNid, who.rightNid), steps);
      && AllEnabled(links, Genesis(who.leftNid, who.rightNid), steps)
      && SentOver(w.left, who, RecordOf(who, sources, rollback), RequestOf(who, protocols, data))
      && Arrived(w.right.chain, who, RequestOf(who, protocols, data), 0) && w.right.receipts == {}
      && w.right.chain.h.openings == multiset{} && w.right.log == map[] && w.left.receipts == {}
      && w.left.chain.h.succeeded == multiset{}
      && steps == BeginWith(who, CallOver(who, sources, protocols, data, rollback))
  {
    hide LocalStep, SentOver;
    var w0 := Genesis(who.leftNid, who.rightNid);
    var s0, s1 := Local(Left, SetDefault(who.rightNid, who.a)), Local(Right, SetDefault(who.leftNid, who.b));
    var s2 := Local(Left, CallOver(who, sources, protocols, data, rollback));
    var w1 := Next(w0, s0);
    var w2 := Next(w1, s1);
    var w3 := Next(w2, s2);
    AfterSetDefault(w0.left, who.rightNid, who.a);
    AfterSetDefault(w0.right, who.leftNid, who.b);
    AfterSend(w2.left, who, sources, protocols, data, rollback);
    SendLeaves(w2.left, CallOver(who, sources, protocols, data, rollback));
    assert (who.b, who.a) in Flip(links);
    assert Connected(links, who.a) && Connected(Flip(links), who.b);
    steps := [s0, s1, s2];
    RunEach(links, w0, steps, [w0, w1, w2, w3]);
  }

  /** A rolled back call that succeeded. */
  ghost predicate RevertedLate(w: World, sources: seq<Addr>, protocols: seq<Addr>) {
    && 1 in w.left.chain.h.issued
    && w.left.chain.h.issued[1].sources == sources && w.left.chain.h.issued[1].request.protocols == protocols
    && w.left.chain.h.rolledBack[1] == 1 && Executed(w.right.chain.h, w.left.chain.h, 1, Success)
  }

  /** The exception is exact: whatever connections a call leaves and enters over, listed or default, as
      many or not, relayed or not, if it can be delivered at all there is a run in which it succeeds,
      its connections revert it, and the source rolls it back. */
  lemma RevertAfterSuccess(links: Links, who: Parties, sources: seq<Addr>, protocols: seq<Addr>, data: bytes,
      rollback: bytes)
    requires (who.a, who.b) in links && who.leftNid != who.rightNid && 0 < |rollback| <= MAX_ROLLBACK_SIZE
    requires NoDup(sources) && NoDup(protocols) && Deliverable(links, who, sources, protocols)
    requires IsAddress(who.account) && AllAddresses(Listed(sources, who.a)) && AllAddresses(Listed(protocols, who.b))
    ensures exists steps ::
      && AllEnabled(links, Genesis(who.leftNid, who.rightNid), steps)
      && RevertedLate(RunWorld(Genesis(who.leftNid, who.rightNid), steps), sources, protocols)
  {
    hide LocalStep, RunWorld, AllEnabled, NoDup, Reverting, Ready, Arrived, Deliverable;
    var g := Genesis(who.leftNid, who.rightNid);
    var record, r := RecordOf(who, sources, rollback), RequestOf(who, protocols, data);
    var upto1 := Begun(links, who, sources, protocols, data, rollback);
    var w1 := RunWorld(g, upto1);
    var deliveries := AllArrive(links, w1, who, record, r, |Listed(protocols, who.b)|);
    RunConcat(links, g, upto1, deliveries);
    var upto2 := upto1 + deliveries;
    var w2 := RunWorld(g, upto2);
    var execute := Local(Right, Execute(1, data, true));
    AfterExecute(w2.right, who, r);
    RunOne(links, w2, execute);
    RunConcat(links, g, upto2, [execute]);
    var upto3 := upto2 + [execute];
    var w3 := RunWorld(g, upto3);
    StartsReverting(w3.left, who, record, r);
    var reverts := AllRevert(links, w3, record, who.a, |Listed(sources, who.a)|);
    RunConcat(links, g, upto3, reverts);
    var upto4 := upto3 + reverts;
    var w4 := RunWorld(g, upto4);
    var rollBack := Local(Left, RunRollback(1, true));
    EndsReverting(w4.left, record, who.a);
    AfterRollback(w4.left, record);
    RunOne(links, w4, rollBack);
    RunConcat(links, g, upto4, [rollBack]);
    var w5 := Next(w4, rollBack);
    assert 1 in w5.right.chain.h.outcome;
    assert RevertedLate(w5, sources, protocols);
  }

  // --------------------------------------------------------- what a call can do

  /** The answer to the call. */
  const ANSWER: CSResult := CSResult(1, Success, Empty)

  /** The answer in the log of every connection the call came in over. */
  ghost predicate Answered(d: Node, who: Parties, protocols: seq<Addr>) {
    forall x :: x in Listed(protocols, who.b) ==>
      Lookup(d.log, x) == [Outgoing(x, who.leftNid, ResultMessage(ANSWER))]
  }

  lemma AnswersPosted(d: Node, who: Parties, r: CSRequest)
    requires Ready(d.chain, who, r) && r.msgType == CallWithRollback && r.from.nid == who.leftNid && r.sn == 1
    requires IsAddress(r.to) && AllAddresses(Listed(r.protocols, who.b)) && NoDup(r.protocols) && d.log == map[]
    ensures Answered(LocalStep(d, Execute(1, r.data, true)), who, r.protocols)
  {
    hide Post;
    var out := Apply(d.chain, Execute(1, r.data, true)).1;
    var route := Listed(r.protocols, who.b);
    assert |out| == |route| && forall i :: 0 <= i < |out| ==>
      out[i] == Outgoing(route[i], who.leftNid, ResultMessage(ANSWER));
    assert NoDup(route);
    forall x | x in route ensures Lookup(Post(map[], out), x) == [Outgoing(x, who.leftNid, ResultMessage(ANSWER))] {
      var i :| 0 <= i < |route| && route[i] == x;
      PostEach(out, i);
    }
  }

  /** The source after the first `i` connections have brought the answer. */
  ghost predicate Answering(c: Chain, record: Rollback, a: Addr, i: nat)
    requires i <= |Listed(record.protocols, a)|
  {
    if i < |Listed(record.protocols, a)| then
      && c.st.rollbacks == map[1 := record] && c.st.defaultConnections == map[record.to.nid := a]
      && c.st.pendingResponses == (if i == 0 then map[] else map[Keccak(ANSWER) := record.protocols[..i]])
      && c.h.succeeded == multiset{}
    else c.h.succeeded == multiset{1}
  }

  lemma AnswerTaken(st: State, record: Rollback, a: Addr, i: nat)
    requires NoDup(record.protocols) && i < |Listed(record.protocols, a)|
    requires st.rollbacks == map[1 := record] && st.defaultConnections == map[record.to.nid := a]
    requires st.pendingResponses == (if i == 0 then map[] else map[Keccak(ANSWER) := record.protocols[..i]])
    ensures HandleResult(st, Listed(record.protocols, a)[i], ANSWER) == Ok(
      if i + 1 < |record.protocols|
      then st.(pendingResponses := map[Keccak(ANSWER) := record.protocols[..i + 1]])
      else st.(pendingResponses := map[], rollbacks := map[], successes := st.successes + {1}))
  {
    var key := Keccak(ANSWER);
    assert st.rollbacks - {1} == map[];
    if record.protocols == [] {
      assert st.(pendingResponses := map[]) == st;
    } else {
      var x := record.protocols[i];
      assert x !in record.protocols[..i];
      assert record.protocols[..i] + [x] == record.protocols[..i + 1];
      assert Register(Lookup(st.pendingResponses, key), x) == record.protocols[..i + 1];
      assert st.pendingResponses - {key} == map[];
      assert st.pendingResponses[key := record.protocols[..i + 1]] == map[key := record.protocols[..i + 1]];
    }
  }

  lemma AnswersNext(c: Chain, nid: Nid, record: Rollback, a: Addr, i: nat)
    requires NoDup(record.protocols) && i < |Listed(record.protocols, a)| && Answering(c, record, a, i)
    requires c.st.networkId != nid
    ensures var x, msg := Listed(record.protocols, a)[i], ResultMessage(ANSWER);
      var c' := Apply(c, Deliver(x, nid, msg)).0;
      && HandleMessage(c.st, x, nid, msg).Ok? && Answering(c', record, a, i + 1)
      && c'.h.issued == c.h.issued && c'.st.networkId == c.st.networkId
  {
    hide HandleResult;
    AnswerTaken(c.st, record, a, i);
  }

  /** Who brings the answer: a relayed connection from its peer's log, anybody else in its own name. */
  ghost predicate Answerable(links: Links, who: Parties, sources: seq<Addr>, protocols: seq<Addr>) {
    forall y :: y in Listed(sources, who.a) && Connected(links, y) ==>
      exists x :: x in Listed(protocols, who.b) && (y, x) in links
  }

  lemma {:induction false} AllAnswer(links: Links, w: World, who: Parties, record: Rollback, protocols: seq<Addr>,
      n: nat)
    returns (steps: seq<WorldStep>)
    requires NoDup(record.protocols) && n <= |Listed(record.protocols, who.a)| && who.leftNid != who.rightNid
    requires Answerable(links, who, record.protocols, protocols) && Answered(w.right, who, protocols)
    requires Answering(w.left.chain, record, who.a, 0) && w.left.receipts == {}
    requires w.left.chain.st.networkId == who.leftNid && w.right.chain.st.networkId == who.rightNid
    ensures var w' := RunWorld(w, steps);
      && AllEnabled(links, w, steps) && NoSends(steps) && w'.right == w.right
      && Answering(w'.left.chain, record, who.a, n) && w'.left.chain.h.issued == w.left.chain.h.issued
      && (forall p :: p in w'.left.receipts ==> p.0 in Listed(record.protocols, who.a)[..n])
      && w'.left.chain.st.networkId == who.leftNid
    decreases n
  {
    hide Answering, Apply, HandleMessage, NoDup;
    if n == 0 {
      steps := [];
    } else {
      var front := AllAnswer(links, w, who, record, protocols, n - 1);
      var w1 := RunWorld(w, front);
      var leaving := Listed(record.protocols, who.a);
      var y := leaving[n - 1];
      AnswersNext(w1.left.chain, who.rightNid, record, who.a, n - 1);
      NotYet(record.protocols, who.a, n - 1);
      var step := Local(Left, Deliver(y, who.rightNid, ResultMessage(ANSWER)));
      if Connected(links, y) {
        var x :| x in Listed(protocols, who.b) && (y, x) in links;
        step := Relay(Left, y, x, 0);
        RelayDelivers(w1.left, w1.right, y, x, ResultMessage(ANSWER));
      }
      steps := front + [step];
      RunOne(links, w1, step);
      RunConcat(links, w, front, [step]);
      assert leaving[..n] == leaving[..n - 1] + [y];
    }
  }

  lemma StartsAnswering(n: Node, who: Parties, record: Rollback, r: CSRequest)
    requires SentOver(n, who, record, r) && record.to.nid == who.rightNid && n.chain.h.succeeded == multiset{}
    ensures Answering(n.chain, record, who.a, 0)
  {
  }

  lemma EndsAnswering(c: Chain, record: Rollback, a: Addr)
    requires Answering(c, record, a, |Listed(record.protocols, a)|)
    ensures c.h.succeeded == multiset{1}
  {
  }

  /** A call that can be delivered and answered can succeed: from the moment it is sent there is a way
      on, without further sends, at the end of which the source records its success. */
  lemma CanSucceed(links: Links, who: Parties, sources: seq<Addr>, protocols: seq<Addr>, data: bytes, rollback: bytes)
    returns (more: seq<WorldStep>)
    requires (who.a, who.b) in links && who.leftNid != who.rightNid && 0 < |rollback| <= MAX_ROLLBACK_SIZE
    requires NoDup(sources) && NoDup(protocols) && IsAddress(who.account)
    requires Deliverable(links, who, sources, protocols) && Answerable(links, who, sources, protocols)
    requires AllAddresses(Listed(sources, who.a)) && AllAddresses(Listed(protocols, who.b))
    ensures var begin := BeginWith(who, CallOver(who, sources, protocols, data, rollback));
      var w := RunWorld(Genesis(who.leftNid, who.rightNid), begin + more);
      && AllEnabled(links, Genesis(who.leftNid, who.rightNid), begin + more) && NoSends(more)
      && w.left.chain.h.succeeded == multiset{1} && Executed(w.right.chain.h, w.left.chain.h, 1, Success)
      && w.left.chain.h.issued == map[1 := Issued(RequestOf(who, protocols, data), sources,
           NetworkAddress(who.rightNid, who.account))]
  {
    hide LocalStep, RunWorld, AllEnabled, NoDup, Answering, Answered, Ready, Arrived, Deliverable, Answerable;
    var g := Genesis(who.leftNid, who.rightNid);
    var record, r := RecordOf(who, sources, rollback), RequestOf(who, protocols, data);
    var upto1 := Begun(links, who, sources, protocols, data, rollback);
    var w1 := RunWorld(g, upto1);
    var deliveries := AllArrive(links, w1, who, record, r, |Listed(protocols, who.b)|);
    RunConcat(links, g, upto1, deliveries);
    var upto2 := upto1 + deliveries;
    var w2 := RunWorld(g, upto2);
    var execute := Local(Right, Execute(1, data, true));
    AfterExecute(w2.right, who, r);
    AnswersPosted(w2.right, who, r);
    RunOne(links, w2, execute);
    RunConcat(links, g, upto2, [execute]);
    var upto3 := upto2 + [execute];
    var w3 := RunWorld(g, upto3);
    NidsKept(who.leftNid, who.rightNid, upto3);
    StartsAnswering(w3.left, who, record, r);
    var answers := AllAnswer(links, w3, who, record, protocols, |Listed(sources, who.a)|);
    RunConcat(links, g, upto3, answers);
    var w4 := RunWorld(g, upto3 + answers);
    EndsAnswering(w4.left.chain, record, who.a);
    more := deliveries + [execute] + answers;
    assert upto1 + more == upto3 + answers;
    assert 1 in w4.right.chain.h.outcome;
  }

  // ------------------------------------------------------- calls opened twice

  /** A call with this many openings. */
  ghost predicate Opened(w: World, sources: seq<Addr>, protocols: seq<Addr>, n: nat) {
    && 1 in w.left.chain.h.issued
    && w.left.chain.h.issued[1].sources == sources && w.left.chain.h.issued[1].request.protocols == protocols
    && w.right.chain.h.openings[w.left.chain.h.issued[1].request] == n
  }

  /** One connection hands over a request that needs no other: a proxy request is opened. */
  lemma OpensAlone(d: Node, s: Node, b: Addr, a: Addr, k: nat, r: CSRequest)
    requires k < |Lookup(s.log, a)| && Lookup(s.log, a)[k] == Outgoing(a, d.chain.st.networkId, RequestMessage(r))
    requires r.from.nid == s.chain.st.networkId != d.chain.st.networkId && (b, k) !in d.receipts
    requires || r.protocols == [b]
             || (r.protocols == [] && d.chain.st.defaultConnections == map[s.chain.st.networkId := b])
    ensures var d' := RelayStep(d, s, b, a, k);
      && d'.chain.h.openings == d.chain.h.openings + multiset{r} && d'.receipts == d.receipts + {(b, k)}
      && d'.chain.st.networkId == d.chain.st.networkId
      && d'.chain.st.defaultConnections == d.chain.st.defaultConnections
  {
  }

  lemma DefaultMoves(n: Node, other: Nid, a: Addr, b: Addr)
    requires n.chain.st.defaultConnections == map[other := a]
    ensures var n' := LocalStep(n, SetDefault(other, b));
      && n'.chain.st.defaultConnections == map[other := b] && n'.chain.st.networkId == n.chain.st.networkId
      && n'.chain.h.openings == n.chain.h.openings && n'.receipts == n.receipts
  {
  }

  /** Why a call without protocols must leave over one connection: over two, when the destination
      changes its default connection in between, it is opened twice. */
  lemma TwoWaysIn(links: Links, who: Parties, a: Addr, b: Addr, data: bytes, rollback: bytes)
    requires who.leftNid != who.rightNid && 0 < |rollback| <= MAX_ROLLBACK_SIZE
    requires (who.a, who.b) in links && (a, b) in links && a != who.a && b != who.b
    requires IsAddress(who.a) && IsAddress(a)
    ensures exists steps ::
      && AllEnabled(links, Genesis(who.leftNid, who.rightNid), steps)
      && Opened(RunWorld(Genesis(who.leftNid, who.rightNid), steps), [who.a, a], [], 2)
  {
    hide LocalStep, RelayStep, RunWorld, AllEnabled;
    var g := Genesis(who.leftNid, who.rightNid);
    var begin := Begun(links, who, [who.a, a], [], data, rollback);
    var w0 := RunWorld(g, begin);
    var r := RequestOf(who, [], data);
    var s0, s1, s2 := Relay(Right, who.b, who.a, 0), Local(Right, SetDefault(who.leftNid, b)), Relay(Right, b, a, 0);
    var w1 := Next(w0, s0);
    var w2 := Next(w1, s1);
    var w3 := Next(w2, s2);
    assert NoDup([who.a, a]);
    OpensAlone(w0.right, w0.left, who.b, who.a, 0, r);
    DefaultMoves(w1.right, who.leftNid, who.b, b);
    OpensAlone(w2.right, w2.left, b, a, 0, r);
    assert (b, a) in Flip(links);
    assert Connected(Flip(links), b);
    RunEach(links, w0, [s0, s1, s2], [w0, w1, w2, w3]);
    RunConcat(links, g, begin, [s0, s1, s2]);
    assert Opened(w3, [who.a, a], [], 2);
  }

  /** Why a call must not list a connection twice: its request is in that connection's log twice, and is
      opened twice. */
  lemma ListedTwice(links: Links, who: Parties, data: bytes, rollback: bytes)
    requires who.leftNid != who.rightNid && 0 < |rollback| <= MAX_ROLLBACK_SIZE && (who.a, who.b) in links
    requires IsAddress(who.a)
    ensures exists steps ::
      && AllEnabled(links, Genesis(who.leftNid, who.rightNid), steps)
      && Opened(RunWorld(Genesis(who.leftNid, who.rightNid), steps), [who.a, who.a], [who.b], 2)
  {
    hide LocalStep, RelayStep, RunWorld, AllEnabled;
    var g := Genesis(who.leftNid, who.rightNid);
    var r := RequestOf(who, [who.b], data);
    var s0, s1, s2, s3 := Local(Left, SetDefault(who.rightNid, who.a)),
      Local(Left, CallOver(who, [who.a, who.a], [who.b], data, rollback)),
      Relay(Right, who.b, who.a, 0), Relay(Right, who.b, who.a, 1);
    var w0 := Next(g, s0);
    var w1 := Next(w0, s1);
    var w2 := Next(w1, s2);
    var w3 := Next(w2, s3);
    AfterSetDefault(g.left, who.rightNid, who.a);
    SentTwice(w0.left, who, data, rollback);
    OpensAlone(w1.right, w1.left, who.b, who.a, 0, r);
    OpensAlone(w2.right, w2.left, who.b, who.a, 1, r);
    assert Connected(links, who.a);
    RunEach(links, g, [s0, s1, s2, s3], [g, w0, w1, w2, w3]);
    assert Opened(w3, [who.a, who.a], [who.b], 2);
  }

  lemma SentTwice(n: Node, who: Parties, data: bytes, rollback: bytes)
    requires n.chain.st == Initial(who.leftNid).(defaultConnections := map[who.rightNid := who.a])
    requires n.chain.h.issued == map[] && n.chain.h.rolledBack == multiset{} && n.log == map[]
    requires 0 < |rollback| <= MAX_ROLLBACK_SIZE && IsAddress(who.a)
    ensures var n' := LocalStep(n, CallOver(who, [who.a, who.a], [who.b], data, rollback));
      var r := RequestOf(who, [who.b], data);
      && n'.chain.st.networkId == who.leftNid
      && n'.chain.h.issued == map[1 := Issued(r, [who.a, who.a], NetworkAddress(who.rightNid, who.account))]
      && Lookup(n'.log, who.a) ==
           [Outgoing(who.a, who.rightNid, RequestMessage(r)), Outgoing(who.a, who.rightNid, RequestMessage(r))]
  {
    var out := Apply(n.chain, CallOver(who, [who.a, who.a], [who.b], data, rollback)).1;
    var o := Outgoing(who.a, who.rightNid, RequestMessage(RequestOf(who, [who.b], data)));
    assert out == [o, o] && out[..1] == [o] && out[..1][..0] == [];
    assert Post(map[], out[..1][..0]) == map[];
    assert Lookup(Post(map[], out[..1]), who.a) == [o];
  }
}
