/**
 Two Soroban chains joined by bytes: what a connection carries is the encoded message, and what the
 other contract handles is what it decodes. A run over bytes is a run over messages in which every
 call was sent as it arrives, and the calls that do not arrive are never relayed; so what holds of
 the calls of every run over messages holds of each call that does not arrive changed, whatever
 happens to the others.
 */
module WireRuns {
  import opened Bytes
  import opened IntegerCodec
  import opened Wrappers
  import opened XCall
  import opened XCallRuns
  import opened CrossChain
  import opened SorobanWire
  import C = SorobanRlp
  import S = SorobanMessages

  // -------------------------------------------------------------------- steps

  /** `recv_message` with the bytes of entry `k`: what is decoded is handled. */
  function WireRelayStep(dst: Node, src: Node, b: Addr, a: Addr, k: nat): Node {
    var entries := Lookup(src.log, a);
    if k >= |entries| || entries[k].nid != dst.chain.st.networkId || (b, k) in dst.receipts then dst
    else if !Sendable(entries[k].message) || Received(Wire(entries[k].message)).None? then dst else
    var msg := Received(Wire(entries[k].message)).value;
    if HandleMessage(dst.chain.st, b, src.chain.st.networkId, msg).Err? then dst
    else dst.(chain := Apply(dst.chain, Deliver(b, src.chain.st.networkId, msg)).0, receipts := dst.receipts + {(b, k)})
  }

  function NextWire(w: World, s: WorldStep): World {
    match s
    case Local(_, _) => Next(w, s)
    case Relay(Right, b, a, k) => w.(right := WireRelayStep(w.right, w.left, b, a, k))
    case Relay(Left, b, a, k) => w.(left := WireRelayStep(w.left, w.right, b, a, k))
  }

  /** The size a send is measured by is the size of its bytes. */
  ghost predicate Measured(st: State, step: Step) {
    step.Send? ==> step.encodedSize == |Wire(RequestMessage(IssuedRequest(st, step.sender, step.envelope, step.to)))|
  }

  ghost predicate EnabledWire(links: Links, w: World, s: WorldStep) {
    Enabled(links, w, s) && (s.Local? ==> Measured(At(w, s.side).chain.st, s.step))
  }

  function RunWire(w: World, steps: seq<WorldStep>): World
    decreases |steps|
  {
    if steps == [] then w else NextWire(RunWire(w, steps[..|steps| - 1]), steps[|steps| - 1])
  }

  ghost predicate AllEnabledWire(links: Links, w: World, steps: seq<WorldStep>)
    decreases |steps|
  {
    || steps == []
    || (&& AllEnabledWire(links, w, steps[..|steps| - 1])
        && EnabledWire(links, RunWire(w, steps[..|steps| - 1]), steps[|steps| - 1]))
  }

  // ------------------------------------------------- the call as it arrives

  /** The call as it arrives; for one that is lost, a call to some other account that is no address, so
      that nobody can execute it. */
  function Sim(r: CSRequest): (q: CSRequest)
    ensures q == r.(from := NetworkAddress(r.from.nid, q.from.account), to := q.to)
    ensures q == r <==> Image(r) == Some(r)
  {
    if Image(r).Some? then Image(r).value else r.(to := if r.to == [] then [0] else [])
  }

  function SimMessage(m: CSMessage): CSMessage {
    match m
    case RequestMessage(r) => RequestMessage(Sim(r))
    case ResultMessage(_) => m
  }

  function SimOut(o: Outgoing): Outgoing { o.(message := SimMessage(o.message)) }

  function SimAll(out: seq<Outgoing>): (sim: seq<Outgoing>)
    ensures |sim| == |out| && forall i :: 0 <= i < |out| ==> sim[i] == SimOut(out[i])
  {
    seq(|out|, i requires 0 <= i < |out| => SimOut(out[i]))
  }

  function SimLog(log: map<Addr, seq<Outgoing>>): map<Addr, seq<Outgoing>> { map a | a in log :: SimAll(log[a]) }

  function SimCall(call: Issued): Issued {
    Issued(Sim(call.request), call.sources, NetworkAddress(call.to.nid, Sim(call.request).to))
  }

  function SimCalls(issued: map<nat, Issued>): map<nat, Issued> { map n | n in issued :: SimCall(issued[n]) }

  // ------------------------------ what the contract does not look at

  /** A rollback record without its caller and the account it was sent to. */
  function Bare(x: Rollback): Rollback { x.(from := [], to := NetworkAddress(x.to.nid, [])) }

  function BareAll(m: map<nat, Rollback>): map<nat, Rollback> { map n | n in m :: Bare(m[n]) }

  function BareState(st: State): State { st.(rollbacks := BareAll(st.rollbacks)) }

  function BareOutcome(o: Outcome<State>): Outcome<State> {
    match o
    case Ok(st) => Ok(BareState(st))
    case Err(e) => Err(e)
  }

  function BareChain(c: Chain): Chain { Chain(BareState(c.st), c.h.(issued := map[])) }

  lemma BareRemove(m: map<nat, Rollback>, n: nat)
    ensures BareAll(m - {n}) == BareAll(m) - {n}
  {
  }

  lemma BareUpdate(m: map<nat, Rollback>, n: nat, x: Rollback)
    ensures BareAll(m[n := x]) == BareAll(m)[n := Bare(x)]
  {
  }

  lemma BareRequest(st: State, sender: Addr, fromNid: Nid, r: CSRequest)
    ensures HandleRequest(BareState(st), sender, fromNid, r) == BareOutcome(HandleRequest(st, sender, fromNid, r))
  {
  }

  lemma BareConclude(st: State, record: Rollback, res: CSResult)
    ensures Conclude(BareState(st), Bare(record), res) == BareOutcome(Conclude(st, record, res))
  {
    hide BareAll;
    BareRemove(st.rollbacks, res.sn);
    BareUpdate(st.rollbacks, res.sn, record.(enabled := true));
  }

  lemma BareResult(st: State, sender: Addr, res: CSResult)
    ensures HandleResult(BareState(st), sender, res) == BareOutcome(HandleResult(st, sender, res))
  {
    hide Conclude;
    if res.sn in st.rollbacks {
      var key := Keccak(res);
      BareConclude(st, st.rollbacks[res.sn], res);
      BareConclude(st.(pendingResponses := st.pendingResponses - {key}), st.rollbacks[res.sn], res);
    }
  }

  lemma BareExecute(st: State, id: nat, data: bytes, dappOk: bool)
    ensures var o, bare := ExecuteCall(st, id, data, dappOk), ExecuteCall(BareState(st), id, data, dappOk);
      if o.Ok? then bare == Ok((BareState(o.value.0), o.value.1)) else bare == o
  {
    hide SendVia, BareAll;
  }

  lemma BareRollback(st: State, n: nat, dappOk: bool)
    ensures ExecuteRollback(BareState(st), n, dappOk) == BareOutcome(ExecuteRollback(st, n, dappOk))
  {
    BareRemove(st.rollbacks, n);
  }

  lemma BareExpire(st: State, key: TemporaryKey)
    ensures Expire(BareState(st), key) == BareState(Expire(st, key))
  {
    if key.RollbackKey? { BareRemove(st.rollbacks, key.sn); }
  }

  lemma BareNoteRequest(h: History, st: State, st': State, sender: Addr, r: CSRequest)
    ensures NoteRequest(h.(issued := map[]), BareState(st), BareState(st'), sender, r) ==
      NoteRequest(h, st, st', sender, r).(issued := map[])
  {
  }

  lemma BareNoteResult(h: History, st: State, st': State, sender: Addr, res: CSResult)
    ensures NoteResult(h.(issued := map[]), BareState(st), BareState(st'), sender, res) ==
      NoteResult(h, st, st', sender, res).(issued := map[])
  {
    hide BareAll;
    BareKeys(st.rollbacks, res.sn);
    BareKeys(st'.rollbacks, res.sn);
    assert Concluded(BareState(st), BareState(st'), res) == Concluded(st, st', res);
  }

  lemma BareKeys(m: map<nat, Rollback>, n: nat)
    ensures n in BareAll(m) <==> n in m
    ensures n in m ==> BareAll(m)[n].protocols == m[n].protocols
  {
  }

  lemma BareDelivery(c: Chain, step: Step)
    requires step.Deliver? || step.Revert?
    ensures Apply(BareChain(c), step) == (BareChain(Apply(c, step).0), Apply(c, step).1)
  {
    hide HandleRequest, HandleResult, BareAll, NoteRequest, NoteResult;
    if step.Deliver? && step.msg.RequestMessage? {
      var r := step.msg.request;
      BareRequest(c.st, step.sender, step.fromNid, r);
      var o := HandleRequest(c.st, step.sender, step.fromNid, r);
      if o.Ok? { BareNoteRequest(c.h, c.st, o.value, step.sender, r); }
    } else {
      var res := if step.Deliver? then step.msg.result else RevertResult(step.sn);
      BareResult(c.st, step.sender, res);
      var o := HandleResult(c.st, step.sender, res);
      if o.Ok? { BareNoteResult(c.h, c.st, o.value, step.sender, res); }
    }
  }

  /** No step but a send looks at callers and accounts of records, or at the calls issued. */
  lemma BareStep(c: Chain, step: Step)
    requires !step.Send?
    ensures Apply(BareChain(c), step) == (BareChain(Apply(c, step).0), Apply(c, step).1)
  {
    hide HandleRequest, HandleResult, HandleMessage, ExecuteCall, ExecuteRollback, Expire, BareAll;
    match step
    case Deliver(_, _, _) => BareDelivery(c, step);
    case Revert(_, _) => BareDelivery(c, step);
    case Execute(id, data, dappOk) => BareExecute(c.st, id, data, dappOk);
    case RunRollback(n, dappOk) => BareRollback(c.st, n, dappOk);
    case Vanish(key) => BareExpire(c.st, key);
    case SetDefault(_, _) =>
  }

  // ----------------------------------------------------- a chain and its likeness

  /** The same chain but for what its calls say about caller and account: `p` sent them as they arrive. */
  ghost predicate Alike(c: Chain, p: Chain) {
    BareChain(c) == BareChain(p) && p.h.issued == SimCalls(c.h.issued)
  }

  /** A send becomes the send that issues the call as it arrives. */
  function SimStep(st: State, step: Step): (t: Step)
    ensures t.Send? <==> step.Send?
  {
    if !step.Send? then step else
    var q := Sim(IssuedRequest(st, step.sender, step.envelope, step.to));
    step.(sender := q.from.account, to := NetworkAddress(step.to.nid, q.to))
  }

  /** What a send does, apart from what is in the call. */
  lemma SendCases(st: State, step: Step)
    requires step.Send?
    ensures var o := SendCall(st, step.sender, step.isContract, step.envelope, step.to, step.encodedSize);
      var route := Route(st, step.to.nid, step.envelope.sources);
      var m := step.envelope.message;
      && (o.Ok? <==>
           && step.encodedSize <= MAX_DATA_SIZE && route.Ok?
           && (m.CallMessageWithRollback? ==> CheckRollback(step.isContract, m.rollback).Ok?))
      && (o.Ok? ==>
           && o.value.1 == SendVia(route.value, step.to.nid,
                RequestMessage(IssuedRequest(st, step.sender, step.envelope, step.to)))
           && o.value.0 == st.(sn := st.sn + 1,
                rollbacks := if !m.CallMessageWithRollback? then st.rollbacks else
                  st.rollbacks[st.sn + 1 := Rollback(step.sender, step.to, step.envelope.sources, m.rollback, false)]))
  {
    hide SendVia;
  }

  lemma SendAlike(c: Chain, p: Chain, step: Step)
    requires Alike(c, p) && step.Send?
    ensures var (r, q) := (Apply(c, step), Apply(p, SimStep(c.st, step)));
      Alike(r.0, q.0) && q.1 == SimAll(r.1)
  {
    hide SendCall, BareAll, SimCalls, CheckRollback, Route;
    var t := SimStep(c.st, step);
    var record := Rollback(step.sender, step.to, step.envelope.sources, [], false);
    SendCases(c.st, step);
    SendCases(p.st, t);
    assert Route(c.st, step.to.nid, step.envelope.sources) == Route(p.st, t.to.nid, t.envelope.sources) by {
      SameRoute(c.st, p.st, step.to.nid, step.envelope.sources);
    }
    assert IssuedRequest(p.st, t.sender, t.envelope, t.to) ==
      Sim(IssuedRequest(c.st, step.sender, step.envelope, step.to));
    if step.envelope.message.CallMessageWithRollback? {
      var data := step.envelope.message.rollback;
      BareUpdate(c.st.rollbacks, c.st.sn + 1, record.(data := data));
      BareUpdate(p.st.rollbacks, p.st.sn + 1, Rollback(t.sender, t.to, step.envelope.sources, data, false));
    }
    SimUpdate(c.h.issued, c.st.sn + 1,
      Issued(IssuedRequest(c.st, step.sender, step.envelope, step.to), step.envelope.sources, step.to));
  }

  lemma SameRoute(st: State, sp: State, nid: Nid, listed: seq<Addr>)
    requires BareState(st) == BareState(sp)
    ensures Route(st, nid, listed) == Route(sp, nid, listed)
  {
    hide BareAll;
    assert st.defaultConnections == BareState(st).defaultConnections == sp.defaultConnections;
  }

  lemma SimUpdate(issued: map<nat, Issued>, n: nat, call: Issued)
    ensures SimCalls(issued[n := call]) == SimCalls(issued)[n := SimCall(call)]
  {
  }

  lemma IssuedOnlyBySend(c: Chain, step: Step)
    requires !step.Send?
    ensures Apply(c, step).0.h.issued == c.h.issued && Apply(c, step).0.st.sn == c.st.sn
  {
    hide Apply;
    match step
    case Deliver(sender, fromNid, msg) =>
      if msg.RequestMessage? {
        RequestSteps(c, step);
        RequestFramesResults(c, sender, fromNid, msg.request);
      } else {
        ResultSteps(c, step);
        ResultEffect(c, sender, msg.result);
      }
    case Revert(sender, n) =>
      ResultSteps(c, step);
      ResultEffect(c, sender, RevertResult(n));
    case Execute(_, _, _) => ExecuteFrames(c, step);
    case RunRollback(_, _) => RollbackIssues(c, step);
    case Vanish(_) => VanishFrames(c, step);
    case SetDefault(_, _) => SetDefaultFrames(c, step);
  }

  lemma RollbackIssues(c: Chain, step: Step)
    requires step.RunRollback?
    ensures Apply(c, step).0.h.issued == c.h.issued && Apply(c, step).0.st.sn == c.st.sn
  {
    hide SendCall, HandleRequest, HandleReply, HandleResult, HandleMessage, ExecuteCall;
  }

  /** What is sent outside a send are results. */
  lemma ResultsAlike(c: Chain, step: Step)
    requires !step.Send?
    ensures SimAll(Apply(c, step).1) == Apply(c, step).1
  {
    hide Apply, Sim;
    if step.Execute? { ExecuteOut(c, step); } else { QuietOut(c, step); }
  }

  lemma ChainAlike(c: Chain, p: Chain, step: Step)
    requires Alike(c, p)
    ensures var (r, q) := (Apply(c, step), Apply(p, SimStep(c.st, step)));
      Alike(r.0, q.0) && q.1 == SimAll(r.1)
  {
    hide Apply, BareChain, SimAll, SimCalls, Sim;
    if step.Send? {
      SendAlike(c, p, step);
    } else {
      BareStep(c, step);
      BareStep(p, step);
      IssuedOnlyBySend(c, step);
      IssuedOnlyBySend(p, step);
      ResultsAlike(c, step);
    }
  }

  // ---------------------------------------------------------------------- logs

  lemma SimLookup(log: map<Addr, seq<Outgoing>>, a: Addr)
    ensures Lookup(SimLog(log), a) == SimAll(Lookup(log, a))
  {
  }

  lemma {:induction false} PostAlike(log: map<Addr, seq<Outgoing>>, out: seq<Outgoing>)
    ensures Post(SimLog(log), SimAll(out)) == SimLog(Post(log, out))
    decreases |out|
  {
    hide SimLog, SimOut;
    if out != [] {
      var front, o := out[..|out| - 1], out[|out| - 1];
      PostAlike(log, front);
      assert SimAll(out)[..|out| - 1] == SimAll(front);
      var mid := Post(log, front);
      SimLookup(mid, o.connection);
      assert SimAll(Lookup(mid, o.connection) + [o]) == SimAll(Lookup(mid, o.connection)) + [SimOut(o)];
      assert SimOut(o).connection == o.connection by { SimKeeps(o); }
      LogUpdate(mid, o.connection, Lookup(mid, o.connection) + [o]);
    }
  }

  lemma SimKeeps(o: Outgoing)
    ensures SimOut(o).connection == o.connection && SimOut(o).nid == o.nid
  {
  }

  lemma LogUpdate(log: map<Addr, seq<Outgoing>>, a: Addr, entries: seq<Outgoing>)
    ensures SimLog(log[a := entries]) == SimLog(log)[a := SimAll(entries)]
  {
  }

  /** A request the contract could send: within the limit, its own network's, with a number it has given. */
  ghost predicate Sent(st: State, r: CSRequest) {
    |Wire(RequestMessage(r))| <= MAX_DATA_SIZE && r.from.nid == st.networkId && r.sn <= st.sn
  }

  ghost predicate LogOk(n: Node) {
    forall a, i, r :: 0 <= i < |Lookup(n.log, a)| && Lookup(n.log, a)[i].message == RequestMessage(r) ==>
      Sent(n.chain.st, r)
  }

  lemma SentStays(c: Chain, step: Step, r: CSRequest)
    requires Sent(c.st, r)
    ensures Sent(Apply(c, step).0.st, r)
  {
    hide Apply, Wire;
    NetworkIdKept(c, step);
    StepSurvives(c, step, 0);
  }

  lemma NewIsSent(c: Chain, step: Step, i: nat)
    requires Measured(c.st, step) && i < |Apply(c, step).1| && Apply(c, step).1[i].message.RequestMessage?
    ensures Sent(Apply(c, step).0.st, Apply(c, step).1[i].message.request)
  {
    hide Wire, SendVia;
    if step.Send? {
      SendCases(c.st, step);
    } else if step.Execute? {
      ExecuteOut(c, step);
    } else {
      QuietOut(c, step);
    }
  }

  lemma LogStaysOk(n: Node, step: Step)
    requires LogOk(n) && Measured(n.chain.st, step)
    ensures LogOk(LocalStep(n, step))
  {
    hide Apply, Sent, Measured, Post;
    var n' := LocalStep(n, step);
    var out := Apply(n.chain, step).1;
    forall a, i, r | 0 <= i < |Lookup(n'.log, a)| && Lookup(n'.log, a)[i].message == RequestMessage(r)
      ensures Sent(n'.chain.st, r)
    {
      PostAppends(n.log, out, a);
      if i < |Lookup(n.log, a)| {
        assert Lookup(n.log, a)[i] == Lookup(n'.log, a)[i];
        SentStays(n.chain, step, r);
      } else {
        var j :| 0 <= j < |out| && out[j] == Lookup(n'.log, a)[i];
        NewIsSent(n.chain, step, j);
      }
    }
  }

  // ------------------------------------------------------ a node and its likeness

  ghost predicate Rel(n: Node, p: Node) {
    && Alike(n.chain, p.chain) && p.log == SimLog(n.log) && p.receipts == n.receipts && p.reverted == n.reverted
    && LogOk(n)
  }

  lemma SameReverts(st: State, sp: State, step: Step)
    requires BareState(st) == BareState(sp)
    ensures NewReverts(st, step) == NewReverts(sp, step)
  {
    hide HandleResult, BareState;
    if step.Revert? {
      BareResult(st, step.sender, RevertResult(step.sn));
      BareResult(sp, step.sender, RevertResult(step.sn));
    }
  }

  lemma LocalRel(n: Node, p: Node, step: Step)
    requires Rel(n, p) && Measured(n.chain.st, step)
    ensures Rel(LocalStep(n, step), LocalStep(p, SimStep(n.chain.st, step)))
  {
    hide Apply, Alike, LogOk, Measured, Post, SimLog, NewReverts, Sim, SimAll;
    ChainAlike(n.chain, p.chain, step);
    PostAlike(n.log, Apply(n.chain, step).1);
    LogStaysOk(n, step);
    RevertsAlike(n.chain, p.chain, step);
  }

  lemma RevertsAlike(c: Chain, p: Chain, step: Step)
    requires Alike(c, p)
    ensures NewReverts(p.st, SimStep(c.st, step)) == NewReverts(c.st, step)
  {
    hide BareState, Sim;
    SameReverts(c.st, p.st, step);
  }

  lemma SameAnswer(st: State, sp: State, sender: Addr, fromNid: Nid, msg: CSMessage)
    requires BareState(st) == BareState(sp)
    ensures HandleMessage(st, sender, fromNid, msg).Ok? <==> HandleMessage(sp, sender, fromNid, msg).Ok?
  {
    hide HandleRequest, HandleResult, BareAll;
    assert st.networkId == BareState(st).networkId == sp.networkId;
    match msg {
      case RequestMessage(r) =>
        BareRequest(st, sender, fromNid, r);
        BareRequest(sp, sender, fromNid, r);
      case ResultMessage(res) =>
        BareResult(st, sender, res);
        BareResult(sp, sender, res);
    }
  }

  lemma SameNid(c: Chain, p: Chain)
    requires Alike(c, p)
    ensures p.st.networkId == c.st.networkId && p.st.sn == c.st.sn
  {
    assert c.st.networkId == BareChain(c).st.networkId && c.st.sn == BareChain(c).st.sn;
  }

  /** Entry `k` arrives as the likeness has it, or is refused. */
  ghost predicate Arrives(msg: CSMessage, d: State, b: Addr, nid: Nid) {
    || Received(Wire(msg)).None?
    || HandleMessage(d, b, nid, Received(Wire(msg)).value).Err?
    || (Sendable(msg) && Received(Wire(msg)) == Some(SimMessage(msg)))
  }

  lemma RequestArrives(s: State, d: State, r: CSRequest, b: Addr)
    requires Sent(s, r) && s.sn < Pow256(16)
    ensures Arrives(RequestMessage(r), d, b, s.networkId)
  {
    hide Wire, Received, Pow256, Decoded;
    DecodedIs(r);
  }

  lemma ResultArrives(links: Links, s: Node, d: Node, a: Addr, b: Addr, k: nat)
    requires (a, b) in links && ResultsExecuted(links, s, d) && IssuedOk(d.chain) && d.chain.st.sn < Pow256(16)
    requires k < |Lookup(s.log, a)| && Lookup(s.log, a)[k].nid == d.chain.st.networkId
    requires Lookup(s.log, a)[k].message.ResultMessage?
    ensures var msg := Lookup(s.log, a)[k].message; Sendable(msg) && Received(Wire(msg)) == Some(msg)
  {
    hide Wire, Received, Pow256;
    var res := Lookup(s.log, a)[k].message.result;
    assert Connected(links, a);
    assert Executed(s.chain.h, d.chain.h, res.sn, res.code);
    ResultTravels(res);
  }

  lemma EntryArrives(links: Links, s: Node, d: Node, ps: Node, pd: Node, a: Addr, b: Addr, k: nat)
    requires (a, b) in links && Rel(s, ps) && Rel(d, pd) && ResultsExecuted(links, ps, pd) && IssuedOk(pd.chain)
    requires s.chain.st.sn < Pow256(16) && d.chain.st.sn < Pow256(16)
    requires k < |Lookup(s.log, a)| && Lookup(s.log, a)[k].nid == d.chain.st.networkId
    ensures Lookup(ps.log, a) == SimAll(Lookup(s.log, a))
    ensures Arrives(Lookup(s.log, a)[k].message, d.chain.st, b, s.chain.st.networkId)
  {
    hide Wire, Received, Pow256, ResultsExecuted, IssuedOk, Alike, Sent, Sim, SimLog;
    SimLookup(s.log, a);
    SameNid(d.chain, pd.chain);
    var msg := Lookup(s.log, a)[k].message;
    if msg.RequestMessage? {
      RequestArrives(s.chain.st, d.chain.st, msg.request, b);
    } else {
      ResultArrives(links, ps, pd, a, b, k);
    }
  }

  lemma AcceptedRel(d: Node, pd: Node, b: Addr, nid: Nid, msg: CSMessage, k: nat)
    requires Rel(d, pd)
    ensures var step := Deliver(b, nid, msg);
      Rel(d.(chain := Apply(d.chain, step).0, receipts := d.receipts + {(b, k)}),
          pd.(chain := Apply(pd.chain, step).0, receipts := pd.receipts + {(b, k)}))
  {
    hide Apply, Alike, Sent, SimLog, SimAll;
    var step := Deliver(b, nid, msg);
    ChainAlike(d.chain, pd.chain, step);
    forall r | Sent(d.chain.st, r) ensures Sent(Apply(d.chain, step).0.st, r) { SentStays(d.chain, step, r); }
  }

  /** A relay over bytes is a relay of the likeness, or nothing happens. */
  lemma RelayRel(links: Links, s: Node, d: Node, ps: Node, pd: Node, b: Addr, a: Addr, k: nat)
    requires (a, b) in links && Rel(s, ps) && Rel(d, pd) && ResultsExecuted(links, ps, pd) && IssuedOk(pd.chain)
    requires s.chain.st.sn < Pow256(16) && d.chain.st.sn < Pow256(16)
    ensures WireRelayStep(d, s, b, a, k) == d || Rel(WireRelayStep(d, s, b, a, k), RelayStep(pd, ps, b, a, k))
  {
    hide Apply, HandleMessage, Wire, Received, Pow256, ResultsExecuted, IssuedOk, BareChain, SimCalls, Sent, SimLog,
      LogOk, SimMessage;
    var entries := Lookup(s.log, a);
    if k < |entries| && entries[k].nid == d.chain.st.networkId && WireRelayStep(d, s, b, a, k) != d {
      EntryArrives(links, s, d, ps, pd, a, b, k);
      SameNid(d.chain, pd.chain);
      SameNid(s.chain, ps.chain);
      var msg := SimMessage(entries[k].message);
      SameAnswer(d.chain.st, pd.chain.st, b, s.chain.st.networkId, msg) by { SameBare(d.chain, pd.chain); }
      AcceptedRel(d, pd, b, s.chain.st.networkId, msg, k);
    }
  }

  lemma SameBare(c: Chain, p: Chain)
    requires Alike(c, p)
    ensures BareState(c.st) == BareState(p.st)
  {
    assert BareState(c.st) == BareChain(c).st;
  }

  // ----------------------------------------------------------------- whole runs

  ghost predicate WorldRel(w: World, p: World) { Rel(w.left, p.left) && Rel(w.right, p.right) }

  function SimWorldStep(w: World, s: WorldStep): WorldStep {
    if s.Local? then Local(s.side, SimStep(At(w, s.side).chain.st, s.step)) else s
  }

  ghost predicate Numbered(w: World) { w.left.chain.st.sn < Pow256(16) && w.right.chain.st.sn < Pow256(16) }

  lemma NextRel(links: Links, w: World, p: World, s: WorldStep)
    requires WorldRel(w, p) && WorldInv(links, p) && EnabledWire(links, w, s) && Numbered(w)
    ensures NextWire(w, s) == w || WorldRel(NextWire(w, s), Next(p, SimWorldStep(w, s)))
    ensures Enabled(links, p, SimWorldStep(w, s))
  {
    hide LocalStep, WireRelayStep, RelayStep, Rel, Inv, ResultsExecuted, Pow256, Measured, SimStep;
    match s
    case Local(side, step) =>
      LocalRel(At(w, side), At(p, side), step);
      StepAllowed(links, w, p, s);
    case Relay(Right, b, a, k) =>
      RecordsKnown(p.right.chain);
      RelayRel(links, w.left, w.right, p.left, p.right, b, a, k);
    case Relay(Left, b, a, k) =>
      assert (a, b) in Flip(links);
      RecordsKnown(p.left.chain);
      RelayRel(Flip(links), w.right, w.left, p.right, p.left, b, a, k);
  }

  lemma RecordsKnown(c: Chain)
    requires Inv(c)
    ensures IssuedOk(c)
  {
  }

  lemma StepAllowed(links: Links, w: World, p: World, s: WorldStep)
    requires WorldRel(w, p) && Enabled(links, w, s) && s.Local?
    ensures Enabled(links, p, SimWorldStep(w, s))
  {
    hide Alike, LogOk, Sim, SimLog;
    SameNid(w.left.chain, p.left.chain);
    SameNid(w.right.chain, p.right.chain);
  }

  /** Counters never go back. */
  lemma CountersGrow(w: World, s: WorldStep)
    ensures var w' := NextWire(w, s);
      w.left.chain.st.sn <= w'.left.chain.st.sn && w.right.chain.st.sn <= w'.right.chain.st.sn
  {
    hide Apply, HandleMessage, Wire, Received;
    forall c: Chain, step ensures c.st.sn <= Apply(c, step).0.st.sn { StepSurvives(c, step, 0); }
  }

  /** A run over bytes is a run over messages in which every call was sent as it arrives: there is one
      that ends in the likeness of its last state. */
  lemma {:induction false} WireRunIs(links: Links, leftNid: Nid, rightNid: Nid, steps: seq<WorldStep>)
    returns (plain: seq<WorldStep>)
    requires OneToOne(links) && AllEnabledWire(links, Genesis(leftNid, rightNid), steps)
    requires Numbered(RunWire(Genesis(leftNid, rightNid), steps))
    ensures AllEnabled(links, Genesis(leftNid, rightNid), plain) && |plain| <= |steps|
    ensures WorldRel(RunWire(Genesis(leftNid, rightNid), steps), RunWorld(Genesis(leftNid, rightNid), plain))
    decreases |steps|
  {
    hide NextWire, Next, EnabledWire, Enabled, WorldRel, WorldInv, Pow256, OneToOne, SimWorldStep;
    var g := Genesis(leftNid, rightNid);
    if steps == [] {
      plain := [];
      GenesisRel(leftNid, rightNid);
    } else {
      var front, s := steps[..|steps| - 1], steps[|steps| - 1];
      var w := RunWire(g, front);
      CountersGrow(w, s);
      var before := WireRunIs(links, leftNid, rightNid, front);
      WorldRunKeeps(links, leftNid, rightNid, before);
      NextRel(links, w, RunWorld(g, before), s);
      var t := SimWorldStep(w, s);
      plain := if NextWire(w, s) == w then before else before + [t];
      assert (before + [t])[..|before|] == before;
    }
  }

  lemma GenesisRel(leftNid: Nid, rightNid: Nid)
    ensures WorldRel(Genesis(leftNid, rightNid), Genesis(leftNid, rightNid))
  {
    hide Wire;
  }

  // ---------------------------------------------------------- what calls are promised

  /** A request that was not issued as it is comes in over no relayed connection, and is not opened. */
  lemma NotIssuedNotOpened(links: Links, s: Node, d: Node, r: CSRequest)
    requires Inv(d.chain) && RequestsIssued(s) && RequestsReceived(links, s, d)
    requires DefaultsRelayed(Flip(links), d, s.chain.st.networkId) && r.from.nid == s.chain.st.networkId
    requires r.protocols != [] ==> exists b :: b in r.protocols && Connected(Flip(links), b)
    requires !(r.sn in s.chain.h.issued && s.chain.h.issued[r.sn].request == r)
    ensures NeverOpened(d, r)
  {
    FlipTwice(links);
    if d.chain.h.openings[r] > 0 {
      var b := RelayedDeliverer(links, d, r, s.chain.st.networkId);
      DeliveredIsIssued(Flip(links), d, s, b, r);
    }
  }

  lemma RelayedDeliverer(links: Links, d: Node, r: CSRequest, nid: Nid) returns (b: Addr)
    requires QuorumAccounting(d.chain) && DefaultAccounting(d.chain) && DefaultsRelayed(Flip(links), d, nid)
    requires r.protocols != [] ==> exists b :: b in r.protocols && Connected(Flip(links), b)
    requires r.from.nid == nid && d.chain.h.openings[r] > 0
    ensures Connected(Flip(links), b) && (b, r) in d.chain.h.delivered
  {
    if r.protocols != [] {
      b :| b in r.protocols && Connected(Flip(links), b);
    } else {
      b :| (r.from.nid, b) in d.chain.h.defaults && (b, r) in d.chain.h.delivered;
    }
  }

  ghost predicate NeverOpened(d: Node, r: CSRequest) {
    d.chain.h.openings[r] == 0 && forall id :: id in d.chain.h.origin ==> d.chain.h.origin[id] != FromRequest(r)
  }

  /** A call with rollback that arrives as another call, to an account that can be called. */
  predicate Altered(r: CSRequest) {
    && r.msgType == CallWithRollback
    && Image(r).Some? && Image(r).value != r && IsAddress(Image(r).value.to)
  }

  lemma CarriedAlike(links: Links, call: Issued, other: Nid)
    requires Carried(links, call, other)
    ensures Carried(links, SimCall(call), other)
  {
    hide Sim;
  }

  lemma SameHistory(n: Node, p: Node)
    requires Rel(n, p)
    ensures n.chain.h.(issued := map[]) == p.chain.h.(issued := map[])
    ensures p.chain.h.issued == SimCalls(n.chain.h.issued) && p.reverted == n.reverted
  {
    assert BareChain(n.chain).h == n.chain.h.(issued := map[]);
  }

  lemma SameReverted(links: Links, n: Node, p: Node, sn: nat)
    requires Rel(n, p) && sn in n.chain.h.issued
    ensures sn in p.chain.h.issued && (AllReverted(links, p, sn) <==> AllReverted(links, n, sn))
  {
    hide Alike, LogOk, Sim, SimLog, Rel;
    SameHistory(n, p);
  }

  /** What the likeness promises for a call that is its own likeness holds of the call. */
  lemma AtomicAlike(links: Links, s: Node, d: Node, ps: Node, pd: Node, sn: nat)
    requires Rel(s, ps) && Rel(d, pd) && sn in s.chain.h.issued && sn in ps.chain.h.issued
    requires Sim(s.chain.h.issued[sn].request) == s.chain.h.issued[sn].request && Atomic(links, ps, pd, sn)
    ensures Atomic(links, s, d, sn)
  {
    hide Rel, Sim, AllReverted;
    SameHistory(s, ps);
    SameHistory(d, pd);
    SameReverted(links, s, ps, sn);
  }

  /** A call that arrives otherwise than it was sent is not opened as it was sent. */
  lemma ChangedNotOpened(links: Links, s: Node, d: Node, ps: Node, pd: Node, sn: nat)
    requires Rel(s, ps) && Rel(d, pd) && Inv(ps.chain) && Inv(pd.chain)
    requires Direction(links, ps, pd) && Direction(Flip(links), pd, ps)
    requires sn in s.chain.h.issued && Carried(links, s.chain.h.issued[sn], d.chain.st.networkId)
    requires Sim(s.chain.h.issued[sn].request) != s.chain.h.issued[sn].request
    ensures NeverOpened(d, s.chain.h.issued[sn].request)
  {
    hide Rel, Inv, RequestsIssued, RequestsUnique, RequestsAlone, ResultsExecuted, RequestsReceived, ResultsReceived,
      DeliveredOnce, DefaultsRelayed;
    var r := s.chain.h.issued[sn].request;
    SameHistory(s, ps);
    SameHistory(d, pd);
    IssuedAlike(s, ps, sn);
    NotIssuedNotOpened(links, ps, pd, r);
  }

  lemma IssuedAlike(s: Node, ps: Node, sn: nat)
    requires Rel(s, ps) && Inv(ps.chain) && sn in s.chain.h.issued
    ensures var r := s.chain.h.issued[sn].request;
      && sn in ps.chain.h.issued && ps.chain.h.issued[sn] == SimCall(s.chain.h.issued[sn])
      && r.sn == sn && r.from.nid == ps.chain.st.networkId
  {
    hide Rel, OpeningsOk, EndsOk, DefaultAccounting, RequestsOk;
    SameHistory(s, ps);
  }

  /** It is never recorded as a success, and rolled back only when reverted, unless it arrives as a call
      that can be executed. */
  lemma ChangedNotEnded(links: Links, s: Node, d: Node, ps: Node, pd: Node, sn: nat)
    requires Rel(s, ps) && Rel(d, pd) && Inv(ps.chain) && Inv(pd.chain)
    requires sn in s.chain.h.issued && sn in ps.chain.h.issued && Atomic(links, ps, pd, sn)
    requires var r := s.chain.h.issued[sn].request; Sim(r) != r && !Altered(r)
    ensures s.chain.h.succeeded[sn] == 0 && s.chain.h.rolledBack[sn] <= 1
    ensures s.chain.h.rolledBack[sn] > 0 ==> AllReverted(links, s, sn)
  {
    hide Rel, AllReverted, Inv;
    SameHistory(s, ps);
    SameHistory(d, pd);
    SameReverted(links, s, ps, sn);
    forall code ensures !Executed(pd.chain.h, ps.chain.h, sn, code) || !Ends(ps.chain.h, sn) {
      NoOutcome(ps, pd, s.chain.h.issued[sn].request, sn, code) by { IssuedAlike(s, ps, sn); }
    }
  }

  ghost predicate Ends(h: History, sn: nat) { h.succeeded[sn] > 0 || h.rolledBack[sn] > 0 }

  lemma NoOutcome(ps: Node, pd: Node, r: CSRequest, sn: nat, code: ResponseCode)
    requires Inv(ps.chain) && Inv(pd.chain) && sn in ps.chain.h.issued && ps.chain.h.issued[sn].request == Sim(r)
    requires Sim(r) != r && !Altered(r)
    ensures !Executed(pd.chain.h, ps.chain.h, sn, code) || !Ends(ps.chain.h, sn)
  {
    hide RequestsOk, DefaultAccounting, RecordsOk, IdsDense, ProxiesMatch, ExecutedOnce, OriginsCounted, Image;
    if Ends(ps.chain.h, sn) {
      assert r.msgType == CallWithRollback;
      assert !IsAddress(Sim(r).to);
    }
  }

  /** What is promised of a call that is not altered on the way. */
  ghost predicate Kept(links: Links, s: Node, d: Node, sn: nat)
    requires sn in s.chain.h.issued
  {
    var r := s.chain.h.issued[sn].request;
    // atomicity, as over messages, and it is opened only if it arrives as it was sent
    && (!Altered(r) ==> Atomic(links, s, d, sn))
    && (Image(r) != Some(r) ==> NeverOpened(d, r))
    // a call that is lost has no success, and no rollback unless it was reverted
    && (Image(r).None? ==> s.chain.h.succeeded[sn] == 0)
    && (Image(r).None? && s.chain.h.rolledBack[sn] > 0 ==> AllReverted(links, s, sn))
  }

  lemma KeptHere(links: Links, s: Node, d: Node, ps: Node, pd: Node, sn: nat)
    requires OneToOne(links) && Rel(s, ps) && Rel(d, pd) && Inv(ps.chain) && Inv(pd.chain)
    requires Direction(links, ps, pd) && Direction(Flip(links), pd, ps)
    requires sn in s.chain.h.issued && Carried(links, s.chain.h.issued[sn], d.chain.st.networkId)
    ensures Kept(links, s, d, sn)
  {
    hide Rel, Inv, Direction, Carried, Image, OneToOne, Atomic, AllReverted;
    var r := s.chain.h.issued[sn].request;
    IssuedAlike(s, ps, sn);
    SameNids(d, pd);
    CarriedAlike(links, s.chain.h.issued[sn], d.chain.st.networkId);
    AtomicHere(links, ps, pd, sn);
    if Sim(r) == r {
      AtomicAlike(links, s, d, ps, pd, sn);
    } else {
      ChangedNotOpened(links, s, d, ps, pd, sn);
      if !Altered(r) {
        ChangedNotEnded(links, s, d, ps, pd, sn);
        NothingIsAtomic(links, s, d, sn);
      }
    }
  }

  lemma SameNids(n: Node, p: Node)
    requires Rel(n, p)
    ensures p.chain.st.networkId == n.chain.st.networkId
  {
    SameNid(n.chain, p.chain);
  }

  lemma NothingIsAtomic(links: Links, s: Node, d: Node, sn: nat)
    requires sn in s.chain.h.issued && s.chain.h.succeeded[sn] == 0 && s.chain.h.rolledBack[sn] <= 1
    requires s.chain.h.rolledBack[sn] > 0 ==> AllReverted(links, s, sn)
    requires NeverOpened(d, s.chain.h.issued[sn].request)
    ensures Atomic(links, s, d, sn)
  {
    hide AllReverted;
  }

  lemma EachCallKept(links: Links, leftNid: Nid, rightNid: Nid, steps: seq<WorldStep>, sn: nat)
    requires OneToOne(links) && AllEnabledWire(links, Genesis(leftNid, rightNid), steps)
    requires Numbered(RunWire(Genesis(leftNid, rightNid), steps))
    ensures var w := RunWire(Genesis(leftNid, rightNid), steps);
      var (l, r) := (w.left.chain.h, w.right.chain.h);
      && (sn in l.issued && Carried(links, l.issued[sn], rightNid) ==> Kept(links, w.left, w.right, sn))
      && (sn in r.issued && Carried(Flip(links), r.issued[sn], leftNid) ==> Kept(Flip(links), w.right, w.left, sn))
  {
    hide RunWire, AllEnabledWire, AllEnabled, RunWorld, Carried, Kept, Rel, Inv, Direction, Numbered, OneToOne;
    var w := RunWire(Genesis(leftNid, rightNid), steps);
    var plain := WireRunIs(links, leftNid, rightNid, steps);
    var p := RunWorld(Genesis(leftNid, rightNid), plain);
    WorldRunKeeps(links, leftNid, rightNid, plain);
    NidsKept(leftNid, rightNid, plain);
    SameNids(w.left, p.left);
    SameNids(w.right, p.right);
    FlipTwice(links);
    FlipOneToOne(links);
    if sn in w.left.chain.h.issued && Carried(links, w.left.chain.h.issued[sn], rightNid) {
      KeptHere(links, w.left, w.right, p.left, p.right, sn);
    }
    if sn in w.right.chain.h.issued && Carried(Flip(links), w.right.chain.h.issued[sn], leftNid) {
      KeptHere(Flip(links), w.right, w.left, p.right, p.left, sn);
    }
  }

  /** Cross-chain atomicity over bytes, call by call: each call that is not altered on the way is atomic,
      whatever becomes of the other calls of either chain. */
  lemma WireAtomicity(links: Links, leftNid: Nid, rightNid: Nid, steps: seq<WorldStep>, sn: nat)
    requires OneToOne(links) && AllEnabledWire(links, Genesis(leftNid, rightNid), steps)
    requires Numbered(RunWire(Genesis(leftNid, rightNid), steps))
    ensures var w := RunWire(Genesis(leftNid, rightNid), steps);
      var (l, r) := (w.left.chain.h, w.right.chain.h);
      && (sn in l.issued && !Altered(l.issued[sn].request) && Carried(links, l.issued[sn], rightNid) ==>
            Atomic(links, w.left, w.right, sn))
      && (sn in r.issued && !Altered(r.issued[sn].request) && Carried(Flip(links), r.issued[sn], leftNid) ==>
            Atomic(Flip(links), w.right, w.left, sn))
  {
    hide RunWire, AllEnabledWire, Carried, Altered, Atomic, Numbered, OneToOne;
    EachCallKept(links, leftNid, rightNid, steps, sn);
  }

  /** A call that is lost on the way is never opened, never recorded as a success, and rolled back only
      when its relayed connections reverted it. */
  lemma LostNeverArrives(links: Links, leftNid: Nid, rightNid: Nid, steps: seq<WorldStep>, sn: nat)
    requires OneToOne(links) && AllEnabledWire(links, Genesis(leftNid, rightNid), steps)
    requires Numbered(RunWire(Genesis(leftNid, rightNid), steps))
    requires var h := RunWire(Genesis(leftNid, rightNid), steps).left.chain.h;
      sn in h.issued && Carried(links, h.issued[sn], rightNid) && Image(h.issued[sn].request).None?
    ensures var w := RunWire(Genesis(leftNid, rightNid), steps);
      && NeverOpened(w.right, w.left.chain.h.issued[sn].request)
      && w.left.chain.h.succeeded[sn] == 0
      && (w.left.chain.h.rolledBack[sn] > 0 ==> AllReverted(links, w.left, sn))
  {
    hide RunWire, AllEnabledWire, Carried, Image, Atomic, Numbered, OneToOne, AllReverted;
    EachCallKept(links, leftNid, rightNid, steps, sn);
  }

  // --------------------------------------------- why calls must not be altered

  /** Receipts are for entries of the peer's log. */
  ghost predicate ReceiptsLogged(links: Links, s: Node, d: Node) {
    forall a, b, k :: (a, b) in links && (b, k) in d.receipts ==> k < |Lookup(s.log, a)|
  }

  ghost predicate AllLogged(links: Links, w: World) {
    ReceiptsLogged(links, w.left, w.right) && ReceiptsLogged(Flip(links), w.right, w.left)
  }

  lemma LogGrows(n: Node, step: Step, a: Addr)
    ensures |Lookup(n.log, a)| <= |Lookup(LocalStep(n, step).log, a)| && LocalStep(n, step).receipts == n.receipts
  {
    hide Apply, Post;
    PostAppends(n.log, Apply(n.chain, step).1, a);
  }

  lemma LocalKeepsLogged(links: Links, n: Node, m: Node, step: Step)
    requires ReceiptsLogged(links, n, m) && ReceiptsLogged(Flip(links), m, n)
    ensures var n' := LocalStep(n, step); ReceiptsLogged(links, n', m) && ReceiptsLogged(Flip(links), m, n')
  {
    hide LocalStep;
    forall a ensures |Lookup(n.log, a)| <= |Lookup(LocalStep(n, step).log, a)| { LogGrows(n, step, a); }
    LogGrows(n, step, []);
  }

  lemma RelayKeepsLogged(links: Links, s: Node, d: Node, b: Addr, a: Addr, k: nat)
    requires OneToOne(links) && (a, b) in links
    requires ReceiptsLogged(links, s, d) && ReceiptsLogged(Flip(links), d, s)
    ensures var d' := WireRelayStep(d, s, b, a, k); ReceiptsLogged(links, s, d') && ReceiptsLogged(Flip(links), d', s)
  {
    hide Apply, HandleMessage, Wire, Received;
  }

  lemma {:induction false} RunLogged(links: Links, leftNid: Nid, rightNid: Nid, steps: seq<WorldStep>)
    requires OneToOne(links) && AllEnabledWire(links, Genesis(leftNid, rightNid), steps)
    ensures AllLogged(links, RunWire(Genesis(leftNid, rightNid), steps))
    decreases |steps|
  {
    hide LocalStep, WireRelayStep, ReceiptsLogged, OneToOne, Measured;
    if steps == [] {
      NoReceipts(links, leftNid, rightNid);
    } else {
      RunLogged(links, leftNid, rightNid, steps[..|steps| - 1]);
      var w := RunWire(Genesis(leftNid, rightNid), steps[..|steps| - 1]);
      FlipTwice(links);
      FlipOneToOne(links);
      match steps[|steps| - 1]
      case Local(Left, step) => LocalKeepsLogged(links, w.left, w.right, step);
      case Local(Right, step) => LocalKeepsLogged(Flip(links), w.right, w.left, step);
      case Relay(Right, b, a, k) => RelayKeepsLogged(links, w.left, w.right, b, a, k);
      case Relay(Left, b, a, k) =>
        assert (a, b) in Flip(links);
        RelayKeepsLogged(Flip(links), w.right, w.left, b, a, k);
    }
  }

  lemma NoReceipts(links: Links, leftNid: Nid, rightNid: Nid)
    ensures AllLogged(links, Genesis(leftNid, rightNid))
  {
  }

  /** The last entry of connection `a`'s log. */
  ghost predicate LastLogged(n: Node, a: Addr, k: nat, o: Outgoing) {
    k + 1 == |Lookup(n.log, a)| && Lookup(n.log, a)[k] == o
  }

  lemma PostOne(log: map<Addr, seq<Outgoing>>, o: Outgoing)
    ensures Lookup(Post(log, [o]), o.connection) == Lookup(log, o.connection) + [o]
  {
    assert [o][..0] == [];
    assert Post(log, [o][..0]) == log;
  }

  /** A call with rollback over one connection, to one connection. */
  ghost predicate OverOne(step: Step, a: Addr, b: Addr) {
    step.Send? && step.envelope.sources == [a] && step.envelope.destinations == [b]
      && step.envelope.message.CallMessageWithRollback?
  }

  /** It was sent: the record, and the request last in the connection's log. */
  ghost predicate Waiting(n: Node, sn: nat, a: Addr, k: nat, to: NetworkAddress, r: CSRequest) {
    && sn in n.chain.st.rollbacks && n.chain.st.rollbacks[sn].protocols == [a]
    && n.chain.h.succeeded[sn] == 0
    && LastLogged(n, a, k, Outgoing(a, to.nid, RequestMessage(r)))
    && sn in n.chain.h.issued && n.chain.h.issued[sn] == Issued(r, [a], to)
  }

  lemma SentOverOne(n: Node, step: Step, a: Addr, b: Addr)
    requires OverOne(step, a, b) && Apply(n.chain, step).0 != n.chain && n.chain.h.succeeded[n.chain.st.sn + 1] == 0
    ensures var n' := LocalStep(n, step);
      Waiting(n', n.chain.st.sn + 1, a, |Lookup(n.log, a)|, step.to,
        IssuedRequest(n.chain.st, step.sender, step.envelope, step.to))
    ensures LocalStep(n, step).receipts == n.receipts && IsAddress(a)
  {
    hide Post, SendVia;
    SendCases(n.chain.st, step);
    var r := IssuedRequest(n.chain.st, step.sender, step.envelope, step.to);
    var o := Outgoing(a, step.to.nid, RequestMessage(r));
    assert Apply(n.chain, step).1 == [o];
    PostOne(n.log, o);
  }

  lemma WireRelays(d: Node, s: Node, b: Addr, a: Addr, k: nat, msg: CSMessage, got: CSMessage)
    requires LastLogged(s, a, k, Outgoing(a, d.chain.st.networkId, msg)) && (b, k) !in d.receipts
    requires Sendable(msg) && Received(Wire(msg)) == Some(got)
    requires HandleMessage(d.chain.st, b, s.chain.st.networkId, got).Ok?
    ensures WireRelayStep(d, s, b, a, k) ==
      d.(chain := Apply(d.chain, Deliver(b, s.chain.st.networkId, got)).0, receipts := d.receipts + {(b, k)})
  {
    hide Apply, HandleMessage, Wire, Received;
  }

  /** One connection delivers a request, which is executed and answered. */
  lemma OpenedAndAnswered(d: Node, b: Addr, nid: Nid, q: CSRequest, receipts: set<(Addr, nat)>)
    requires nid != d.chain.st.networkId && q.from.nid == nid && q.protocols == [b] && q.msgType == CallWithRollback
    requires IsAddress(q.to) && IsAddress(b)
    ensures HandleMessage(d.chain.st, b, nid, RequestMessage(q)).Ok?
    ensures var d1 := d.(chain := Apply(d.chain, Deliver(b, nid, RequestMessage(q))).0, receipts := receipts);
      var d2 := LocalStep(d1, Execute(d.chain.st.lastReqId + 1, q.data, true));
      && LastLogged(d2, b, |Lookup(d.log, b)|, Outgoing(b, nid, ResultMessage(CSResult(q.sn, Success, Empty))))
      && d2.chain.st.networkId == d.chain.st.networkId
  {
    hide Post;
    var c1 := Apply(d.chain, Deliver(b, nid, RequestMessage(q))).0;
    var id := d.chain.st.lastReqId + 1;
    assert id in c1.st.proxyRequests && c1.st.proxyRequests[id] == Proxy(q, [b]);
    var out := Apply(c1, Execute(id, q.data, true)).1;
    var o := Outgoing(b, nid, ResultMessage(CSResult(q.sn, Success, Empty)));
    assert out == [o];
    PostOne(d.log, o);
  }

  lemma SuccessTaken(n: Node, sn: nat, a: Addr, k: nat, to: NetworkAddress, r: CSRequest)
    requires Waiting(n, sn, a, k, to, r) && to.nid != n.chain.st.networkId
    ensures var msg := ResultMessage(CSResult(sn, Success, Empty));
      && HandleMessage(n.chain.st, a, to.nid, msg).Ok?
      && (var h := Apply(n.chain, Deliver(a, to.nid, msg)).0.h;
          h.succeeded[sn] == 1 && h.issued == n.chain.h.issued)
  {
  }

  ghost predicate Succeeded(h: History, call: Issued) {
    h.succeeded[call.request.sn] == 1 && call.request.sn in h.issued && h.issued[call.request.sn] == call
  }

  /** The request goes over altered, is executed, and the answer comes back. */
  lemma ThereAndBack(w: World, a: Addr, b: Addr, k: nat, to: NetworkAddress, r: CSRequest)
    requires Waiting(w.left, r.sn, a, k, to, r) && to.nid == w.right.chain.st.networkId && (b, k) !in w.right.receipts
    requires w.left.chain.st.networkId == r.from.nid != w.right.chain.st.networkId
    requires (a, |Lookup(w.right.log, b)|) !in w.left.receipts
    requires Sent(w.left.chain.st, r) && 1 <= r.sn < Pow256(16) && Altered(r) && r.protocols == [b] && IsAddress(b)
    ensures var w1 := NextWire(w, Relay(Right, b, a, k));
      var w2 := NextWire(w1, Local(Right, Execute(w.right.chain.st.lastReqId + 1, r.data, true)));
      var w3 := NextWire(w2, Relay(Left, a, b, |Lookup(w.right.log, b)|));
      Succeeded(w3.left.chain.h, Issued(r, [a], to))
  {
    hide LocalStep, WireRelayStep, Wire, Received, Apply, HandleMessage, Pow256, Decoded, LastLogged;
    var q := Image(r).value;
    var answer := ResultMessage(CSResult(r.sn, Success, Empty));
    DecodedIs(r);
    OpenedAndAnswered(w.right, b, r.from.nid, q, w.right.receipts + {(b, k)});
    WireRelays(w.right, w.left, b, a, k, RequestMessage(r), RequestMessage(q));
    ResultTravels(answer.result);
    SuccessTaken(w.left, r.sn, a, k, to, r);
    var w1 := NextWire(w, Relay(Right, b, a, k));
    var w2 := NextWire(w1, Local(Right, Execute(w.right.chain.st.lastReqId + 1, r.data, true)));
    WireRelays(w2.left, w2.right, a, b, |Lookup(w.right.log, b)|, answer, answer);
  }

  lemma StaysNumbered(w: World, s: WorldStep)
    requires Numbered(w) && (s.Local? ==> !s.step.Send?)
    ensures Numbered(NextWire(w, s))
  {
    hide Apply, HandleMessage, Wire, Received, Pow256;
    forall c: Chain, step: Step | !step.Send? ensures Apply(c, step).0.st.sn == c.st.sn { IssuedOnlyBySend(c, step); }
  }

  lemma OneMore(links: Links, w: World, steps: seq<WorldStep>, s: WorldStep)
    requires AllEnabledWire(links, w, steps) && EnabledWire(links, RunWire(w, steps), s)
    ensures AllEnabledWire(links, w, steps + [s]) && RunWire(w, steps + [s]) == NextWire(RunWire(w, steps), s)
  {
    hide NextWire, EnabledWire;
    assert (steps + [s])[..|steps|] == steps;
  }

  lemma ThreeMore(links: Links, g: World, steps: seq<WorldStep>, s1: WorldStep, s2: WorldStep, s3: WorldStep)
    requires AllEnabledWire(links, g, steps) && Numbered(RunWire(g, steps))
    requires s1.Relay? && s1.to == Right && (s1.peer, s1.connection) in links
    requires s2.Local? && s2.side == Right && s2.step.Execute?
    requires s3.Relay? && s3.to == Left && (s3.connection, s3.peer) in links
    ensures AllEnabledWire(links, g, steps + [s1, s2, s3]) && Numbered(RunWire(g, steps + [s1, s2, s3]))
    ensures RunWire(g, steps + [s1, s2, s3]) == NextWire(NextWire(NextWire(RunWire(g, steps), s1), s2), s3)
  {
    hide RunWire, AllEnabledWire, NextWire, Numbered;
    var w := RunWire(g, steps);
    var w1 := NextWire(w, s1);
    var w2 := NextWire(w1, s2);
    OneMore(links, g, steps, s1);
    OneMore(links, g, steps + [s1], s2);
    OneMore(links, g, steps + [s1] + [s2], s3);
    assert steps + [s1, s2, s3] == steps + [s1] + [s2] + [s3];
    StaysNumbered(w, s1);
    StaysNumbered(w1, s2);
    StaysNumbered(w2, s3);
  }

  /** What the likeness tells about a reached state. */
  lemma Reached(links: Links, leftNid: Nid, rightNid: Nid, steps: seq<WorldStep>)
    requires OneToOne(links) && AllEnabledWire(links, Genesis(leftNid, rightNid), steps)
    requires Numbered(RunWire(Genesis(leftNid, rightNid), steps))
    ensures var w := RunWire(Genesis(leftNid, rightNid), steps);
      && w.left.chain.st.networkId == leftNid && w.right.chain.st.networkId == rightNid
      && w.left.chain.h.succeeded[w.left.chain.st.sn + 1] == 0 && LogOk(w.left)
  {
    hide RunWire, AllEnabledWire, AllEnabled, RunWorld, OneToOne, Numbered, Direction, RequestsOk, DefaultAccounting,
      OpeningsOk, LogOk, Alike, Pow256;
    var plain := WireRunIs(links, leftNid, rightNid, steps);
    var w, p := RunWire(Genesis(leftNid, rightNid), steps), RunWorld(Genesis(leftNid, rightNid), plain);
    WorldRunKeeps(links, leftNid, rightNid, plain);
    NidsKept(leftNid, rightNid, plain);
    SameNid(w.left.chain, p.left.chain);
    SameNid(w.right.chain, p.right.chain);
    SameHistory(w.left, p.left);
  }

  /** The world after a run in which call `sn` is not atomic, although it is one the theorem is about. */
  ghost predicate Broken(links: Links, w: World, sn: nat, r: CSRequest) {
    && sn in w.left.chain.h.issued && w.left.chain.h.issued[sn].request == r
    && Carried(links, w.left.chain.h.issued[sn], w.right.chain.st.networkId)
    && w.left.chain.h.succeeded[sn] == 1 && NeverOpened(w.right, r) && !Atomic(links, w.left, w.right, sn)
  }

  lemma OneCarried(links: Links, call: Issued, other: Nid, a: Addr, b: Addr)
    requires (a, b) in links && call.sources == [a] && call.request.protocols == [b]
    ensures Carried(links, call, other)
  {
    assert (b, a) in Flip(links);
    assert a in call.sources && Connected(links, a) && b in call.request.protocols && Connected(Flip(links), b);
  }

  /** The call has just been sent: it waits, and nothing stands in its way there or back. */
  lemma JustSent(links: Links, leftNid: Nid, rightNid: Nid, before: seq<WorldStep>, call: Step, a: Addr, b: Addr)
    requires OneToOne(links) && (a, b) in links && OverOne(call, a, b) && call.to.nid == rightNid
    requires AllEnabledWire(links, Genesis(leftNid, rightNid), before + [Local(Left, call)])
    requires Numbered(RunWire(Genesis(leftNid, rightNid), before + [Local(Left, call)]))
    requires var c := RunWire(Genesis(leftNid, rightNid), before).left.chain; Apply(c, call).0 != c
    ensures var g := Genesis(leftNid, rightNid);
      var (w0, w) := (RunWire(g, before), RunWire(g, before + [Local(Left, call)]));
      var k := |Lookup(w0.left.log, a)|;
      var r := IssuedRequest(w0.left.chain.st, call.sender, call.envelope, call.to);
      && w.left.chain.st.networkId == leftNid && w.right.chain.st.networkId == rightNid && r.from.nid == leftNid
      && Waiting(w.left, r.sn, a, k, call.to, r) && Sent(w.left.chain.st, r) && r.sn < Pow256(16)
      && (b, k) !in w.right.receipts && (a, |Lookup(w.right.log, b)|) !in w.left.receipts
  {
    hide LocalStep, WireRelayStep, Wire, Apply, OneToOne, Measured, Enabled, Sent, Pow256;
    var g := Genesis(leftNid, rightNid);
    var sent := before + [Local(Left, call)];
    assert sent[..|before|] == before;
    var w0, w := RunWire(g, before), RunWire(g, sent);
    CountersGrow(w0, Local(Left, call));
    Reached(links, leftNid, rightNid, before);
    Reached(links, leftNid, rightNid, sent);
    RunLogged(links, leftNid, rightNid, before);
    SentOverOne(w0.left, call, a, b);
    assert (b, a) in Flip(links);
    var r := IssuedRequest(w0.left.chain.st, call.sender, call.envelope, call.to);
    assert Sent(w.left.chain.st, r);
    NumberGiven(w.left.chain.st, r);
  }

  lemma NumberGiven(st: State, r: CSRequest)
    requires Sent(st, r)
    ensures r.sn <= st.sn
  {
  }

  lemma IsBroken(links: Links, leftNid: Nid, rightNid: Nid, steps: seq<WorldStep>, call: Issued)
    requires OneToOne(links) && AllEnabledWire(links, Genesis(leftNid, rightNid), steps)
    requires Numbered(RunWire(Genesis(leftNid, rightNid), steps))
    requires Succeeded(RunWire(Genesis(leftNid, rightNid), steps).left.chain.h, call)
    requires Altered(call.request) && Carried(links, call, rightNid)
    ensures Broken(links, RunWire(Genesis(leftNid, rightNid), steps), call.request.sn, call.request)
  {
    hide RunWire, AllEnabledWire, OneToOne, Numbered, Image, Carried;
    Reached(links, leftNid, rightNid, steps);
    EachCallKept(links, leftNid, rightNid, steps, call.request.sn);
  }

  /** The condition is exact: whenever, after whatever run, the contract accepts a call over one relayed
      connection that is altered on the way, the run can go on so that the call is recorded as a
      success although it was never opened as it was sent. */
  lemma AlteredCallSucceeds(links: Links, leftNid: Nid, rightNid: Nid, before: seq<WorldStep>, call: Step, a: Addr,
      b: Addr)
    returns (more: seq<WorldStep>)
    requires OneToOne(links) && (a, b) in links && IsAddress(b) && leftNid != rightNid && OverOne(call, a, b)
    requires call.to.nid == rightNid
    requires AllEnabledWire(links, Genesis(leftNid, rightNid), before + [Local(Left, call)])
    requires Numbered(RunWire(Genesis(leftNid, rightNid), before + [Local(Left, call)]))
    requires var c := RunWire(Genesis(leftNid, rightNid), before).left.chain;
      Apply(c, call).0 != c && Altered(IssuedRequest(c.st, call.sender, call.envelope, call.to))
    ensures AllEnabledWire(links, Genesis(leftNid, rightNid), before + [Local(Left, call)] + more)
    ensures var st := RunWire(Genesis(leftNid, rightNid), before).left.chain.st;
      Broken(links, RunWire(Genesis(leftNid, rightNid), before + [Local(Left, call)] + more), st.sn + 1,
        IssuedRequest(st, call.sender, call.envelope, call.to))
  {
    hide LocalStep, WireRelayStep, Wire, Received, Apply, HandleMessage, RunWire, AllEnabledWire, Numbered, Altered,
      LogOk, ReceiptsLogged, Waiting, Broken, Measured, OneToOne, Succeeded, NextWire, Sent, Carried;
    var g := Genesis(leftNid, rightNid);
    var sent := before + [Local(Left, call)];
    var w := RunWire(g, sent);
    var k, j := |Lookup(RunWire(g, before).left.log, a)|, |Lookup(w.right.log, b)|;
    var r := IssuedRequest(RunWire(g, before).left.chain.st, call.sender, call.envelope, call.to);
    JustSent(links, leftNid, rightNid, before, call, a, b);
    ThereAndBack(w, a, b, k, call.to, r);
    var s1, s2, s3 := Relay(Right, b, a, k), Local(Right, Execute(w.right.chain.st.lastReqId + 1, r.data, true)),
      Relay(Left, a, b, j);
    more := [s1, s2, s3];
    ThreeMore(links, g, sent, s1, s2, s3);
    OneCarried(links, Issued(r, [a], call.to), rightNid, a, b);
    IsBroken(links, leftNid, rightNid, sent + more, Issued(r, [a], call.to));
  }

  // The same for every shape of call: runs over messages in which no message is lost are runs over bytes.

  /** Every request in the logs is taken on the other side. */
  ghost predicate AllTaken(n: Node) {
    forall a, i, r :: 0 <= i < |Lookup(n.log, a)| && Lookup(n.log, a)[i].message == RequestMessage(r) ==>
      Image(r).Some?
  }

  lemma TakenArrives(links: Links, s: Node, d: Node, ps: Node, pd: Node, b: Addr, a: Addr, k: nat)
    requires (a, b) in links && Rel(s, ps) && Rel(d, pd) && ResultsExecuted(links, ps, pd) && IssuedOk(pd.chain)
    requires s.chain.st.sn < Pow256(16) && d.chain.st.sn < Pow256(16) && AllTaken(s)
    requires k < |Lookup(s.log, a)| && Lookup(s.log, a)[k].nid == d.chain.st.networkId
    ensures Lookup(ps.log, a) == SimAll(Lookup(s.log, a))
    ensures var msg := Lookup(s.log, a)[k].message; Sendable(msg) && Received(Wire(msg)) == Some(SimMessage(msg))
  {
    hide Wire, Received, Pow256, ResultsExecuted, IssuedOk, Alike, SimLog, Decoded;
    SimLookup(s.log, a);
    SameNid(d.chain, pd.chain);
    var msg := Lookup(s.log, a)[k].message;
    if msg.RequestMessage? {
      assert Sent(s.chain.st, msg.request);
      DecodedIs(msg.request);
    } else {
      ResultArrives(links, ps, pd, a, b, k);
    }
  }

  lemma RelayLifts(links: Links, s: Node, d: Node, ps: Node, pd: Node, b: Addr, a: Addr, k: nat)
    requires (a, b) in links && Rel(s, ps) && Rel(d, pd) && ResultsExecuted(links, ps, pd) && IssuedOk(pd.chain)
    requires s.chain.st.sn < Pow256(16) && d.chain.st.sn < Pow256(16) && AllTaken(s)
    ensures Rel(WireRelayStep(d, s, b, a, k), RelayStep(pd, ps, b, a, k))
  {
    hide Apply, HandleMessage, Wire, Received, Pow256, ResultsExecuted, IssuedOk, BareChain, SimCalls, Sent, SimLog,
      LogOk, SimMessage, AllTaken;
    SimLookup(s.log, a);
    SameNid(d.chain, pd.chain);
    SameNid(s.chain, ps.chain);
    var entries := Lookup(s.log, a);
    if k < |entries| && entries[k].nid == d.chain.st.networkId {
      TakenArrives(links, s, d, ps, pd, b, a, k);
      var msg := SimMessage(entries[k].message);
      SameAnswer(d.chain.st, pd.chain.st, b, s.chain.st.networkId, msg) by { SameBare(d.chain, pd.chain); }
      AcceptedRel(d, pd, b, s.chain.st.networkId, msg, k);
    }
  }

  lemma LocalTaken(n: Node, step: Step)
    requires AllTaken(n) && !step.Send?
    ensures AllTaken(LocalStep(n, step))
  {
    hide Apply, Post, Image;
    var n' := LocalStep(n, step);
    var out := Apply(n.chain, step).1;
    forall a, i, r | 0 <= i < |Lookup(n'.log, a)| && Lookup(n'.log, a)[i].message == RequestMessage(r)
      ensures Image(r).Some?
    {
      PostAppends(n.log, out, a);
      if i < |Lookup(n.log, a)| {
        assert Lookup(n.log, a)[i] == Lookup(n'.log, a)[i];
      } else if step.Execute? {
        ExecuteOut(n.chain, step);
      } else {
        QuietOut(n.chain, step);
      }
    }
  }

  /** Related worlds in which nothing on the way is lost. */
  ghost predicate Lossless(links: Links, w: World, p: World) {
    WorldRel(w, p) && WorldInv(links, p) && Numbered(w) && AllTaken(w.left) && AllTaken(w.right)
  }

  lemma NextLifts(links: Links, w: World, p: World, s: WorldStep)
    requires OneToOne(links) && Lossless(links, w, p) && Enabled(links, p, s) && (s.Local? ==> !s.step.Send?)
    ensures EnabledWire(links, w, s) && Lossless(links, NextWire(w, s), Next(p, s))
    ensures NextWire(w, s).left.chain.h.issued == w.left.chain.h.issued
  {
    hide LocalStep, WireRelayStep, RelayStep, Rel, Inv, ResultsExecuted, Pow256, OneToOne, AllTaken;
    SameNids(w.left, p.left);
    SameNids(w.right, p.right);
    StaysNumbered(w, s);
    WorldStepKeeps(links, p, s);
    StaysIssued(w, s);
    match s
    case Local(side, step) =>
      LocalRel(At(w, side), At(p, side), step);
      LocalTaken(At(w, side), step);
    case Relay(Right, b, a, k) =>
      RecordsKnown(p.right.chain);
      RelayLifts(links, w.left, w.right, p.left, p.right, b, a, k);
      RelayTaken(w.right, w.left, b, a, k);
    case Relay(Left, b, a, k) =>
      assert (a, b) in Flip(links);
      RecordsKnown(p.left.chain);
      RelayLifts(Flip(links), w.right, w.left, p.right, p.left, b, a, k);
      RelayTaken(w.left, w.right, b, a, k);
  }

  lemma RelayTaken(d: Node, s: Node, b: Addr, a: Addr, k: nat)
    requires AllTaken(d)
    ensures AllTaken(WireRelayStep(d, s, b, a, k))
  {
    hide Apply, HandleMessage, Wire, Received, Image;
  }

  lemma StaysIssued(w: World, s: WorldStep)
    requires s.Local? ==> !s.step.Send?
    ensures NextWire(w, s).left.chain.h.issued == w.left.chain.h.issued
  {
    hide Apply, HandleMessage, Wire, Received;
    forall c: Chain, step: Step | !step.Send? ensures Apply(c, step).0.h.issued == c.h.issued {
      IssuedOnlyBySend(c, step);
    }
  }

  lemma {:induction false} RunLifts(links: Links, w: World, p: World, steps: seq<WorldStep>)
    requires OneToOne(links) && Lossless(links, w, p) && NoSends(steps) && AllEnabled(links, p, steps)
    ensures AllEnabledWire(links, w, steps) && Lossless(links, RunWire(w, steps), RunWorld(p, steps))
    ensures RunWire(w, steps).left.chain.h.issued == w.left.chain.h.issued
    decreases |steps|
  {
    hide Lossless, Next, NextWire, Enabled, EnabledWire, OneToOne;
    if steps != [] {
      var front, s := steps[..|steps| - 1], steps[|steps| - 1];
      assert s in steps;
      RunLifts(links, w, p, front);
      NextLifts(links, RunWire(w, front), RunWorld(p, front), s);
    }
  }

  lemma {:induction false} WireConcat(links: Links, w: World, a: seq<WorldStep>, b: seq<WorldStep>)
    requires AllEnabledWire(links, w, a) && AllEnabledWire(links, RunWire(w, a), b)
    ensures AllEnabledWire(links, w, a + b) && RunWire(w, a + b) == RunWire(RunWire(w, a), b)
    decreases |b|
  {
    hide NextWire, EnabledWire;
    if b == [] {
      assert a + b == a;
    } else {
      WireConcat(links, w, a, b[..|b| - 1]);
      assert (a + b)[..|a + b| - 1] == a + b[..|b| - 1];
    }
  }

  // Its beginning.

  lemma SizeOnlyLimits(n: Node, step: Step, size: nat)
    requires step.Send? && step.encodedSize <= MAX_DATA_SIZE && size <= MAX_DATA_SIZE
    ensures LocalStep(n, step.(encodedSize := size)) == LocalStep(n, step)
  {
    hide Post;
  }

  /** The call, measured. */
  function WireCall(who: Parties, sources: seq<Addr>, protocols: seq<Addr>, data: bytes, rollback: bytes): (s: Step)
    ensures s.Send?
  {
    var call := CallOver(who, sources, protocols, data, rollback);
    assert call.Send?;
    call.(encodedSize := |Wire(RequestMessage(RequestOf(who, protocols, data)))|)
  }

  function CallOf(who: Parties, sources: seq<Addr>, protocols: seq<Addr>, data: bytes): Issued {
    Issued(RequestOf(who, protocols, data), sources, NetworkAddress(who.rightNid, who.account))
  }

  /** The parties of the call as it arrives. */
  function SimParties(who: Parties, protocols: seq<Addr>, data: bytes): Parties {
    var q := Sim(RequestOf(who, protocols, data));
    who.(sender := q.from.account, account := q.to)
  }

  lemma SendLifts(n: Node, p: Node, who: Parties, sources: seq<Addr>, protocols: seq<Addr>, data: bytes,
      rollback: bytes)
    requires Rel(n, p) && n.chain.st.networkId == who.leftNid && n.chain.st.sn == 0 && n.log == map[]
    requires |Wire(RequestMessage(RequestOf(who, protocols, data)))| <= MAX_DATA_SIZE
    requires Image(RequestOf(who, protocols, data)).Some?
    ensures var call := WireCall(who, sources, protocols, data, rollback);
      var sim := SimParties(who, protocols, data);
      && Measured(n.chain.st, call) && AllTaken(LocalStep(n, call))
      && Rel(LocalStep(n, call), LocalStep(p, CallOver(sim, sources, protocols, data, rollback)))
  {
    hide LocalStep, Rel, Wire, Image, Sim;
    var call := WireCall(who, sources, protocols, data, rollback);
    var sim := SimParties(who, protocols, data);
    var r := RequestOf(who, protocols, data);
    assert IssuedRequest(n.chain.st, call.sender, call.envelope, call.to) == r;
    LocalRel(n, p, call);
    var plain := CallOver(sim, sources, protocols, data, rollback);
    assert SimStep(n.chain.st, call) == plain.(encodedSize := call.encodedSize);
    SizeOnlyLimits(p, plain, call.encodedSize);
    SendTaken(n, call);
  }

  lemma SendTaken(n: Node, step: Step)
    requires step.Send? && n.log == map[] && Image(IssuedRequest(n.chain.st, step.sender, step.envelope, step.to)).Some?
    ensures AllTaken(LocalStep(n, step))
  {
    hide Image, Post, SendVia, IssuedRequest;
    var n' := LocalStep(n, step);
    var out := Apply(n.chain, step).1;
    SendCases(n.chain.st, step);
    forall a, i, r | 0 <= i < |Lookup(n'.log, a)| && Lookup(n'.log, a)[i].message == RequestMessage(r)
      ensures Image(r).Some?
    {
      PostAppends(n.log, out, a);
    }
  }
  lemma NotSend(st: State, step: Step)
    requires !step.Send?
    ensures Measured(st, step) && SimStep(st, step) == step
  {
  }

  lemma SentIssued(n: Node, who: Parties, sources: seq<Addr>, protocols: seq<Addr>, data: bytes, rollback: bytes)
    requires n.chain.st == Initial(who.leftNid).(defaultConnections := map[who.rightNid := who.a])
    requires n.chain.h.issued == map[] && n.chain.h.rolledBack == multiset{} && n.log == map[]
    requires 0 < |rollback| <= MAX_ROLLBACK_SIZE && AllAddresses(Listed(sources, who.a))
    requires |Wire(RequestMessage(RequestOf(who, protocols, data)))| <= MAX_DATA_SIZE
    ensures var c := LocalStep(n, WireCall(who, sources, protocols, data, rollback)).chain;
      && c.h.issued == map[1 := CallOf(who, sources, protocols, data)]
      && c.st.sn <= 1
  {
    hide LocalStep, Wire;
    AfterSend(n, who, sources, protocols, data, rollback);
    var call := CallOver(who, sources, protocols, data, rollback);
    assert call.Send?;
    SizeOnlyLimits(n, call, |Wire(RequestMessage(RequestOf(who, protocols, data)))|);
    OneNumber(n, WireCall(who, sources, protocols, data, rollback));
  }

  lemma OneNumber(n: Node, step: Step)
    requires step.Send?
    ensures LocalStep(n, step).chain.st.sn <= n.chain.st.sn + 1
  {
    hide Post, SendVia;
    SendCases(n.chain.st, step);
  }

  lemma {:induction false} WireEach(links: Links, w: World, steps: seq<WorldStep>, ws: seq<World>)
    requires |ws| == |steps| + 1 && ws[0] == w
    requires forall i ::
      0 <= i < |steps| ==> EnabledWire(links, ws[i], steps[i]) && ws[i + 1] == NextWire(ws[i], steps[i])
    ensures AllEnabledWire(links, w, steps) && RunWire(w, steps) == ws[|steps|]
    decreases |steps|
  {
    hide NextWire, EnabledWire;
    if steps != [] {
      WireEach(links, w, steps[..|steps| - 1], ws[..|steps|]);
    }
  }

  lemma RunThree(w: World, s: seq<WorldStep>)
    requires |s| == 3
    ensures RunWorld(w, s) == Next(Next(Next(w, s[0]), s[1]), s[2])
  {
    hide Next;
    var two := s[..2];
    var one := two[..1];
    assert one[..0] == [] && s[..|s| - 1] == two && two[..|two| - 1] == one;
    assert RunWorld(w, one) == Next(w, s[0]);
    assert RunWorld(w, two) == Next(Next(w, s[0]), s[1]);
  }

  lemma EmptyTaken(n: Node)
    requires n.log == map[]
    ensures AllTaken(n)
  {
  }

  lemma OneIsSmall()
    ensures 1 < Pow256(16)
  {
    Pow256Values();
  }

  /** Both defaults set and the call sent, over bytes and over messages. */
  lemma BeginLifts(links: Links, who: Parties, sources: seq<Addr>, protocols: seq<Addr>, data: bytes, rollback: bytes)
    requires OneToOne(links) && (who.a, who.b) in links && who.leftNid != who.rightNid
    requires 0 < |rollback| <= MAX_ROLLBACK_SIZE && AllAddresses(Listed(sources, who.a))
    requires |Wire(RequestMessage(RequestOf(who, protocols, data)))| <= MAX_DATA_SIZE
    requires Image(RequestOf(who, protocols, data)).Some?
    ensures var g := Genesis(who.leftNid, who.rightNid);
      var begin := BeginWith(who, WireCall(who, sources, protocols, data, rollback));
      var sim := SimParties(who, protocols, data);
      var plain := BeginWith(sim, CallOver(sim, sources, protocols, data, rollback));
      && AllEnabledWire(links, g, begin) && AllEnabled(links, g, plain)
      && WorldRel(RunWire(g, begin), RunWorld(g, plain)) && Numbered(RunWire(g, begin))
      && AllTaken(RunWire(g, begin).left) && AllTaken(RunWire(g, begin).right)
      && RunWire(g, begin).left.chain.h.issued == map[1 := CallOf(who, sources, protocols, data)]
  {
    hide LocalStep, Rel, Wire, Image, AllTaken, Sim, Pow256, Measured, RunWire, AllEnabledWire, RunWorld, AllEnabled;
    var g := Genesis(who.leftNid, who.rightNid);
    var call, sim := WireCall(who, sources, protocols, data, rollback), SimParties(who, protocols, data);
    var s0, s1 := Local(Left, SetDefault(who.rightNid, who.a)), Local(Right, SetDefault(who.leftNid, who.b));
    var s2 := Local(Left, call);
    var w1 := NextWire(g, s0);
    var w2 := NextWire(w1, s1);
    var w3 := NextWire(w2, s2);
    GenesisRel(who.leftNid, who.rightNid);
    LocalRel(g.left, g.left, s0.step) by { NotSend(g.left.chain.st, s0.step); }
    LocalRel(g.right, g.right, s1.step) by { NotSend(g.right.chain.st, s1.step); }
    AfterSetDefault(g.left, who.rightNid, who.a);
    AfterSetDefault(g.right, who.leftNid, who.b);
    SendLifts(w2.left, w2.left, who, sources, protocols, data, rollback);
    SentIssued(w2.left, who, sources, protocols, data, rollback);
    assert (who.b, who.a) in Flip(links);
    assert Connected(links, who.a) && Connected(Flip(links), who.b);
    NotSend(w1.right.chain.st, s1.step);
    NotSend(g.left.chain.st, s0.step);
    WireEach(links, g, [s0, s1, s2], [g, w1, w2, w3]);
    var begin := Begun(links, sim, sources, protocols, data, rollback);
    RunThree(g, begin);
    EmptyTaken(w3.right);
    OneIsSmall();
  }

  /** The condition is exact for every shape of call: distinct sources and protocols, listed or default,
      as many or not, relayed or not. If the call can be delivered and answered at all and is altered on the way, there
      is a run in which it is recorded as a success although it was never opened as it was sent. */
  lemma AlteredInAnyShape(links: Links, who: Parties, sources: seq<Addr>, protocols: seq<Addr>, data: bytes,
      rollback: bytes)
    returns (steps: seq<WorldStep>)
    requires OneToOne(links) && (who.a, who.b) in links && who.leftNid != who.rightNid
    requires 0 < |rollback| <= MAX_ROLLBACK_SIZE && NoDup(protocols)
    requires Carried(links, CallOf(who, sources, protocols, data), who.rightNid)
    requires Deliverable(links, who, sources, protocols) && Answerable(links, who, sources, protocols)
    requires AllAddresses(Listed(sources, who.a)) && AllAddresses(Listed(protocols, who.b))
    requires |Wire(RequestMessage(RequestOf(who, protocols, data)))| <= MAX_DATA_SIZE
    requires Altered(RequestOf(who, protocols, data))
    ensures AllEnabledWire(links, Genesis(who.leftNid, who.rightNid), steps)
    ensures Broken(links, RunWire(Genesis(who.leftNid, who.rightNid), steps), 1, RequestOf(who, protocols, data))
  {
    hide Wire, AllTaken, RunWire, AllEnabledWire, RunWorld, AllEnabled, Numbered, Broken, OneToOne, Rel, WorldInv,
      BeginWith, Image;
    var g := Genesis(who.leftNid, who.rightNid);
    var sim, r := SimParties(who, protocols, data), RequestOf(who, protocols, data);
    var begin := BeginWith(who, WireCall(who, sources, protocols, data, rollback));
    var plain := BeginWith(sim, CallOver(sim, sources, protocols, data, rollback));
    BeginLifts(links, who, sources, protocols, data, rollback);
    SameWays(links, who, sim, sources, protocols);
    var more := CanSucceed(links, sim, sources, protocols, data, rollback);
    WorldRunKeeps(links, who.leftNid, who.rightNid, plain);
    RunSplits(links, g, plain, more);
    RunLifts(links, RunWire(g, begin), RunWorld(g, plain), more);
    WireConcat(links, g, begin, more);
    steps := begin + more;
    SameHistory(RunWire(g, steps).left, RunWorld(g, plain + more).left);
    IsBroken(links, who.leftNid, who.rightNid, steps, CallOf(who, sources, protocols, data));
  }

  lemma SameWays(links: Links, who: Parties, sim: Parties, sources: seq<Addr>, protocols: seq<Addr>)
    requires sim == who.(sender := sim.sender, account := sim.account)
    requires Deliverable(links, who, sources, protocols) && Answerable(links, who, sources, protocols)
    ensures Deliverable(links, sim, sources, protocols) && Answerable(links, sim, sources, protocols)
  {
  }

  lemma {:induction false} RunSplits(links: Links, w: World, a: seq<WorldStep>, b: seq<WorldStep>)
    requires AllEnabled(links, w, a + b)
    ensures AllEnabled(links, RunWorld(w, a), b) && RunWorld(w, a + b) == RunWorld(RunWorld(w, a), b)
    decreases |b|
  {
    hide Next, Enabled;
    if b == [] {
      assert a + b == a;
    } else {
      assert (a + b)[..|a + b| - 1] == a + b[..|b| - 1];
      RunSplits(links, w, a, b[..|b| - 1]);
    }
  }

  /** Such a call: its account is `b8 38` and an address. It arrives as a call to the address. */
  lemma EncodedAccountIsAltered(r: CSRequest, address: bytes)
    requires r.msgType == CallWithRollback && r.sn >= 1 && |address| == 56 && r.to == [0xb8, 56] + address
    requires S.StartsLow(Join(r.from)) && SEPARATOR !in r.from.nid && |Join(r.from)| <= 255 && !AnyFiftyFive(r)
    ensures Image(r) == Some(r.(to := address)) && Altered(r)
  {
    hide Join, Split, AnyFiftyFive, C.Decode;
    EncodedAccount(address);
    C.DecodeFixed(Join(r.from));
    SplitJoinIff(r.from);
  }
}
