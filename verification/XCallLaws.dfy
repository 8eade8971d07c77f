/**
 What each transaction of the contract does, told by what can be observed of the storage before and
 after it, and what follows over whole runs: a quorum opens, agreement concludes, a reply is opened
 once, persisted calls are retried, a rollback that fails stays.
 */
module XCallLaws {
  import opened Bytes
  import opened XCall
  import opened XCallRuns

  // ------------------------------------------------------------------- observing

  function Elements(s: seq<Addr>): set<Addr> { set a | a in s }

  /** Entries under all other keys are as they were. */
  ghost predicate OthersSame<K(!new), V(!new)>(m: map<K, V>, m': map<K, V>, key: K) {
    forall k :: k != key ==> (k in m' <==> k in m) && (k in m ==> m'[k] == m[k])
  }

  /** Request id `id` holds this request, with its data hashed, to be answered over `protocols`. */
  ghost predicate HeldAs(st: State, id: nat, r: CSRequest, protocols: seq<Addr>) {
    && id in st.proxyRequests
    && (var p := st.proxyRequests[id];
        && p.from == r.from && p.to == r.to && p.sn == r.sn && p.msgType == r.msgType
        && p.data == Keccak(r.data) && p.protocols == protocols)
  }

  /** One proxy request more, under the next id. */
  ghost predicate OpensOne(st: State, st': State, r: CSRequest, protocols: seq<Addr>) {
    && st'.lastReqId == st.lastReqId + 1 && HeldAs(st', st'.lastReqId, r, protocols)
    && OthersSame(st.proxyRequests, st'.proxyRequests, st'.lastReqId)
  }

  ghost predicate OpensNone(st: State, st': State) {
    st'.lastReqId == st.lastReqId && st'.proxyRequests == st.proxyRequests
  }

  /** Who may deliver: a listed connection, or the network's default when none is listed. */
  ghost predicate MayDeliver(st: State, sender: Addr, nid: Nid, protocols: seq<Addr>) {
    if protocols == [] then nid in st.defaultConnections && st.defaultConnections[nid] == sender
    else exists i :: 0 <= i < |protocols| && protocols[i] == sender
  }

  // ------------------------------------------------------------------- requests

  /** Which deliveries of a request are accepted, and with what error the others are refused. */
  lemma RequestAccepted(st: State, sender: Addr, fromNid: Nid, r: CSRequest)
    ensures HandleMessage(st, sender, fromNid, RequestMessage(r)).Ok? <==>
      fromNid != st.networkId && r.from.nid == fromNid && MayDeliver(st, sender, fromNid, r.protocols)
    ensures fromNid == st.networkId ==>
      HandleMessage(st, sender, fromNid, RequestMessage(r)) == Err(InvalidSourceNetwork)
    ensures fromNid != st.networkId && r.from.nid != fromNid ==>
      HandleMessage(st, sender, fromNid, RequestMessage(r)) == Err(NetworkIdMismatch)
    ensures fromNid != st.networkId && r.from.nid == fromNid && !MayDeliver(st, sender, fromNid, r.protocols) ==>
      HandleMessage(st, sender, fromNid, RequestMessage(r)) == Err(ProtocolsMismatch)
  {
  }

  /** An accepted delivery touches the pending list of its own payload and no other. It opens one proxy
      request, and clears the list, when all protocols have been heard; otherwise one more has been. */
  lemma RequestEffects(st: State, sender: Addr, fromNid: Nid, r: CSRequest)
    requires HandleMessage(st, sender, fromNid, RequestMessage(r)).Ok? && PendingRequestsOk(st)
    ensures var st' := HandleMessage(st, sender, fromNid, RequestMessage(r)).value;
      var key := Keccak(r);
      var heard := Elements(Lookup(st.pendingRequests, key)) + {sender};
      && OthersSame(st.pendingRequests, st'.pendingRequests, key)
      && st' == st.(pendingRequests := st'.pendingRequests, proxyRequests := st'.proxyRequests,
                    lastReqId := st'.lastReqId)
      && (if |r.protocols| <= 1 || |heard| == |r.protocols|
          then OpensOne(st, st', r, r.protocols) && (|r.protocols| > 1 ==> key !in st'.pendingRequests)
          else OpensNone(st, st') && Elements(Lookup(st'.pendingRequests, key)) == heard)
  {
    hide Elements, HandleRequest, PendingRequestsOk, HeldAs;
    if |r.protocols| > 1 {
      RequestCounts(st, sender, fromNid, r);
      RequestOfMany(st, sender, fromNid, r);
    } else {
      RequestOfFew(st, sender, fromNid, r);
    }
  }

  lemma RequestCounts(st: State, sender: Addr, fromNid: Nid, r: CSRequest)
    requires HandleRequest(st, sender, fromNid, r).Ok? && PendingRequestsOk(st) && |r.protocols| > 1
    ensures var pending := Lookup(st.pendingRequests, Keccak(r));
      var now := Register(pending, sender);
      Elements(now) == Elements(pending) + {sender} && |Elements(now)| == |now| <= |r.protocols|
  {
    var pending := Lookup(st.pendingRequests, Keccak(r));
    var now := Register(pending, sender);
    assert Elements(now) == Elements(pending) + {sender};
    RegisterOk(pending, sender, r.protocols);
    DistinctCount(now);
    assert Elements(now) == set x | x in now;
  }

  lemma RequestOfMany(st: State, sender: Addr, fromNid: Nid, r: CSRequest)
    requires HandleRequest(st, sender, fromNid, r).Ok? && |r.protocols| > 1
    ensures var st', key := HandleRequest(st, sender, fromNid, r).value, Keccak(r);
      var now := Register(Lookup(st.pendingRequests, key), sender);
      && OthersSame(st.pendingRequests, st'.pendingRequests, key)
      && st' == st.(pendingRequests := st'.pendingRequests, proxyRequests := st'.proxyRequests,
                    lastReqId := st'.lastReqId)
      && (if |now| == |r.protocols| then OpensOne(st, st', r, r.protocols) && key !in st'.pendingRequests
          else OpensNone(st, st') && Lookup(st'.pendingRequests, key) == now)
  {
    hide Register;
  }

  lemma RequestOfFew(st: State, sender: Addr, fromNid: Nid, r: CSRequest)
    requires HandleRequest(st, sender, fromNid, r).Ok? && |r.protocols| <= 1
    ensures var st' := HandleRequest(st, sender, fromNid, r).value;
      && st' == st.(proxyRequests := st'.proxyRequests, lastReqId := st'.lastReqId)
      && OpensOne(st, st', r, r.protocols)
  {
  }

  /** The pending lists of requests change only by deliveries and expiry; so do deliveries and openings. */
  lemma PendingKept(c: Chain, step: Step)
    requires !(step.Deliver? && step.msg.RequestMessage?)
    ensures var c' := Apply(c, step).0;
      && c'.h.delivered == c.h.delivered && c'.h.openings == c.h.openings
      && c'.st.pendingRequests == (if step.Vanish? && step.key.PendingRequestKey?
                                   then c.st.pendingRequests - {step.key.request} else c.st.pendingRequests)
  {
    hide SendCall, HandleResult, ExecuteCall, ExecuteRollback, NoteRequest, NoteResult, HandleRequest;
    match step
    case Send(_, _, _, _, _) => SendKeepsPending(c.st, step);
    case Deliver(sender, _, msg) => ResultKeepsPending(c, sender, msg.result);
    case Revert(sender, n) => ResultKeepsPending(c, sender, RevertResult(n));
    case Execute(id, data, dappOk) =>
      if ExecuteCall(c.st, id, data, dappOk).Ok? { ExecuteRemoves(c.st, id, data, dappOk); }
    case RunRollback(n, dappOk) => RollbackKeepsPending(c.st, n, dappOk);
    case Vanish(_) =>
    case SetDefault(_, _) =>
  }

  lemma SendKeepsPending(st: State, step: Step)
    requires step.Send?
    ensures var o := SendCall(st, step.sender, step.isContract, step.envelope, step.to, step.encodedSize);
      o.Ok? ==> o.value.0.pendingRequests == st.pendingRequests && o.value.0.pendingResponses == st.pendingResponses
  {
  }

  lemma ResultKeepsPending(c: Chain, sender: Addr, res: CSResult)
    ensures var o := HandleResult(c.st, sender, res);
      o.Ok? ==>
        && o.value.pendingRequests == c.st.pendingRequests
        && (var h := NoteResult(c.h, c.st, o.value, sender, res);
            h.delivered == c.h.delivered && h.openings == c.h.openings)
  {
  }

  lemma RollbackKeepsPending(st: State, n: nat, dappOk: bool)
    ensures var o := ExecuteRollback(st, n, dappOk);
      o.Ok? ==> o.value.pendingRequests == st.pendingRequests && o.value.pendingResponses == st.pendingResponses
  {
  }

  /** While a request has not been opened, every connection that delivered it is on its pending list. */
  ghost predicate Waiting(c: Chain, r: CSRequest) {
    c.h.openings[r] == 0 ==>
      forall a :: (a, r) in c.h.delivered ==> |r.protocols| > 1 && a in Lookup(c.st.pendingRequests, Keccak(r))
  }

  lemma DeliveryNoted(c: Chain, sender: Addr, fromNid: Nid, q: CSRequest)
    ensures var o, c' := HandleMessage(c.st, sender, fromNid, RequestMessage(q)),
      Apply(c, Deliver(sender, fromNid, RequestMessage(q))).0;
      if o.Err? then c' == c else
      && c'.st == o.value && c'.h.delivered == c.h.delivered + multiset{(sender, q)}
      && c'.h.openings == (if o.value.lastReqId == c.st.lastReqId then c.h.openings else c.h.openings + multiset{q})
  {
    hide HandleRequest;
  }

  lemma DeliveryWaits(c: Chain, sender: Addr, fromNid: Nid, q: CSRequest, r: CSRequest)
    requires Waiting(c, r) && PendingRequestsOk(c.st)
    ensures Waiting(Apply(c, Deliver(sender, fromNid, RequestMessage(q))).0, r)
  {
    hide HandleMessage, Apply, Waiting, OthersSame, Elements, HeldAs;
    DeliveryNoted(c, sender, fromNid, q);
    if HandleMessage(c.st, sender, fromNid, RequestMessage(q)).Ok? {
      RequestEffects(c.st, sender, fromNid, q);
      var c' := Apply(c, Deliver(sender, fromNid, RequestMessage(q))).0;
      if q != r { OtherWaits(c, c', sender, q, r); } else { SameWaits(c, c', sender, r); }
    }
  }

  lemma OtherWaits(c: Chain, c': Chain, sender: Addr, q: CSRequest, r: CSRequest)
    requires Waiting(c, r) && q != r && OthersSame(c.st.pendingRequests, c'.st.pendingRequests, Keccak(q))
    requires c'.h.delivered == c.h.delivered + multiset{(sender, q)} && c.h.openings <= c'.h.openings
    ensures Waiting(c', r)
  {
    assert Lookup(c'.st.pendingRequests, Keccak(r)) == Lookup(c.st.pendingRequests, Keccak(r));
  }

  lemma SameWaits(c: Chain, c': Chain, sender: Addr, r: CSRequest)
    requires Waiting(c, r) && c'.h.delivered == c.h.delivered + multiset{(sender, r)}
    requires || c'.h.openings == c.h.openings + multiset{r}
             || (c'.h.openings == c.h.openings && |r.protocols| > 1
                 && Elements(Lookup(c'.st.pendingRequests, Keccak(r))) ==
                      Elements(Lookup(c.st.pendingRequests, Keccak(r))) + {sender})
    ensures Waiting(c', r)
  {
    var old_, new_ := Lookup(c.st.pendingRequests, Keccak(r)), Lookup(c'.st.pendingRequests, Keccak(r));
    if c'.h.openings[r] == 0 {
      forall a | (a, r) in c'.h.delivered ensures |r.protocols| > 1 && a in new_ {
        assert a == sender || (a, r) in c.h.delivered;
        assert a in Elements(new_);
      }
    }
  }

  lemma StepWaits(c: Chain, step: Step, r: CSRequest)
    requires Waiting(c, r) && PendingRequestsOk(c.st) && step != Vanish(PendingRequestKey(Keccak(r)))
    ensures Waiting(Apply(c, step).0, r)
  {
    hide Apply, PendingRequestsOk;
    if step.Deliver? && step.msg.RequestMessage? {
      DeliveryWaits(c, step.sender, step.fromNid, step.msg.request, r);
    } else {
      PendingKept(c, step);
    }
  }

  lemma {:induction false} RunWaits(networkId: Nid, steps: seq<Step>, r: CSRequest)
    requires Vanish(PendingRequestKey(Keccak(r))) !in steps
    ensures Waiting(Run(Start(networkId), steps), r)
    decreases |steps|
  {
    hide Apply, Waiting;
    if steps == [] {
      NothingWaits(networkId, r);
    } else {
      var front := steps[..|steps| - 1];
      assert steps[|steps| - 1] in steps;
      RunWaits(networkId, front, r);
      RunKeeps(networkId, front);
      StepWaits(Run(Start(networkId), front), steps[|steps| - 1], r);
    }
  }

  lemma NothingWaits(networkId: Nid, r: CSRequest)
    ensures Waiting(Start(networkId), r)
  {
  }

  /** Everybody the request lists has delivered it, or somebody if it lists nobody. */
  ghost predicate DeliveredByAll(h: History, r: CSRequest) {
    if r.protocols == [] then exists a :: (a, r) in h.delivered
    else forall a :: a in r.protocols ==> (a, r) in h.delivered
  }

  /** A quorum opens: in every run in which its pending list does not expire, a request was opened if and
      only if all its protocols have delivered it and none of them is listed twice. */
  lemma QuorumOpens(networkId: Nid, steps: seq<Step>, r: CSRequest)
    requires Vanish(PendingRequestKey(Keccak(r))) !in steps
    ensures var h := Run(Start(networkId), steps).h;
      h.openings[r] >= 1 <==> NoDup(r.protocols) && DeliveredByAll(h, r)
  {
    hide Run;
    var c := Run(Start(networkId), steps);
    RunWaits(networkId, steps, r);
    RunKeeps(networkId, steps);
    if !NoDup(r.protocols) {
      RepeatedNeverOpens(networkId, steps, r);
    } else if c.h.openings[r] == 0 && DeliveredByAll(c.h, r) {
      if r.protocols != [] {
        var p := Lookup(c.st.pendingRequests, Keccak(r));
        assert r.protocols[0] in p;
        FullListHasAll(r.protocols, p);
      }
      assert false;
    }
  }

  /** Why the list must not expire: between two deliveries it takes the first one with it. */
  lemma ExpiryLosesDelivery(networkId: Nid, r: CSRequest, a: Addr, b: Addr)
    requires r.protocols == [a, b] && a != b && r.from.nid != networkId
    ensures var steps := [Deliver(a, r.from.nid, RequestMessage(r)), Vanish(PendingRequestKey(Keccak(r))),
        Deliver(b, r.from.nid, RequestMessage(r))];
      var h := Run(Start(networkId), steps).h;
      NoDup(r.protocols) && DeliveredByAll(h, r) && h.openings[r] == 0
  {
    var s0, s1, s2 := Deliver(a, r.from.nid, RequestMessage(r)), Vanish(PendingRequestKey(Keccak(r))),
      Deliver(b, r.from.nid, RequestMessage(r));
    var steps := [s0, s1, s2];
    hide Apply;
    var c0 := Start(networkId);
    var c1 := Apply(c0, s0).0;
    var c2 := Apply(c1, s1).0;
    HalfDelivered(c0, a, r);
    AllForgotten(c1, r);
    HalfDelivered(c2, b, r);
    assert steps[..2] == [s0, s1] && steps[..2][..1] == [s0] && steps[..2][..1][..0] == [];
    assert Run(c0, steps[..2][..1]) == c1 && Run(c0, steps[..2]) == c2;
    assert Run(c0, steps) == Apply(c2, s2).0;
  }

  lemma HalfDelivered(c: Chain, x: Addr, r: CSRequest)
    requires c.st.pendingRequests == map[] && |r.protocols| == 2 && x in r.protocols && r.from.nid != c.st.networkId
    ensures var c' := Apply(c, Deliver(x, r.from.nid, RequestMessage(r))).0;
      && c'.st.pendingRequests == map[Keccak(r) := [x]] && c'.st.networkId == c.st.networkId
      && c'.h.delivered == c.h.delivered + multiset{(x, r)} && c'.h.openings == c.h.openings
  {
    assert Register([], x) == [x];
  }

  lemma AllForgotten(c: Chain, r: CSRequest)
    requires c.st.pendingRequests.Keys == {Keccak(r)}
    ensures var c' := Apply(c, Vanish(PendingRequestKey(Keccak(r)))).0;
      c'.st.pendingRequests == map[] && c'.h == c.h && c'.st.networkId == c.st.networkId
  {
  }

  /** Requests that repeat a protocol are never opened, whoever delivers them. */
  lemma {:induction false} RepeatedNeverOpens(networkId: Nid, steps: seq<Step>, r: CSRequest)
    requires !NoDup(r.protocols)
    ensures Run(Start(networkId), steps).h.openings[r] == 0
    decreases |steps|
  {
    hide Apply, NoDup;
    if steps != [] {
      var front, step := steps[..|steps| - 1], steps[|steps| - 1];
      var c := Run(Start(networkId), front);
      RepeatedNeverOpens(networkId, front, r);
      RunKeeps(networkId, front);
      if step.Deliver? && step.msg.RequestMessage? {
        DeliveryNoted(c, step.sender, step.fromNid, step.msg.request);
        if step.msg.request == r { NeverFull(c.st, step.sender, step.fromNid, r); }
      } else {
        PendingKept(c, step);
      }
    }
  }

  lemma NeverFull(st: State, sender: Addr, fromNid: Nid, r: CSRequest)
    requires PendingRequestsOk(st) && !NoDup(r.protocols)
    ensures var o := HandleMessage(st, sender, fromNid, RequestMessage(r)); o.Ok? ==> o.value.lastReqId == st.lastReqId
  {
    if HandleMessage(st, sender, fromNid, RequestMessage(r)).Ok? {
      RequestEffects(st, sender, fromNid, r);
      var pending := Lookup(st.pendingRequests, Keccak(r));
      var now := Register(pending, sender);
      RegisterOk(pending, sender, r.protocols);
      assert Elements(now) == Elements(pending) + {sender};
      Repetition(now, r.protocols);
    }
  }

  /** A list with a repetition has fewer elements than places. */
  lemma Repetition(p: seq<Addr>, q: seq<Addr>)
    requires NoDup(p) && (forall a :: a in p ==> a in q) && !NoDup(q)
    ensures |p| < |q| && |Elements(p)| == |p|
  {
    var i, j :| 0 <= i < j < |q| && q[i] == q[j];
    var rest := q[..j] + q[j + 1..];
    forall a | a in p ensures a in rest {
      var k :| 0 <= k < |q| && q[k] == a;
      assert if k < j then rest[k] == a else if k == j then rest[i] == a else rest[k - 1] == a;
    }
    FullListHasAll(p, rest);
    DistinctCount(p);
    assert Elements(p) == set x | x in p;
  }

  // -------------------------------------------------------------------- results

  /** All connections of the record have been heard, now that `sender` has. */
  ghost predicate Completes(st: State, sender: Addr, res: CSResult)
    requires res.sn in st.rollbacks
  {
    var protocols := st.rollbacks[res.sn].protocols;
    |protocols| <= 1 || |Elements(Lookup(st.pendingResponses, Keccak(res))) + {sender}| == |protocols|
  }

  /** A success whose reply claims to come from another network than the call went to. */
  ghost predicate ForeignReply(st: State, res: CSResult)
    requires res.sn in st.rollbacks
  {
    res.code == Success && res.message.Reply? && res.message.request.from.nid != st.rollbacks[res.sn].to.nid
  }

  ghost predicate ResponseListsOk(st: State) {
    forall k :: k in st.pendingResponses && k.preimage.sn in st.rollbacks ==>
      var p, protocols := st.pendingResponses[k], st.rollbacks[k.preimage.sn].protocols;
      NoDup(p) && (forall a :: a in p ==> a in protocols) && |p| < |protocols|
  }

  lemma ListsOk(c: Chain)
    requires RecordsOk(c)
    ensures ResponseListsOk(c.st)
  {
  }

  lemma HeardCounts(st: State, sender: Addr, res: CSResult)
    requires ResponseListsOk(st) && res.sn in st.rollbacks
    requires ValidSource(st, sender, st.rollbacks[res.sn].to.nid, st.rollbacks[res.sn].protocols)
    ensures var now := Register(Lookup(st.pendingResponses, Keccak(res)), sender);
      && Elements(now) == Elements(Lookup(st.pendingResponses, Keccak(res))) + {sender}
      && (|st.rollbacks[res.sn].protocols| > 1 ==>
            (Completes(st, sender, res) <==> |now| == |st.rollbacks[res.sn].protocols|))
  {
    var pending := Lookup(st.pendingResponses, Keccak(res));
    var now := Register(pending, sender);
    assert Elements(now) == Elements(pending) + {sender};
    if |st.rollbacks[res.sn].protocols| > 1 {
      RegisterOk(pending, sender, st.rollbacks[res.sn].protocols);
      DistinctCount(now);
      assert Elements(now) == set x | x in now;
    }
  }

  /** Which results are accepted, and with what error the others are refused. */
  lemma ResultAccepted(st: State, sender: Addr, res: CSResult)
    requires ResponseListsOk(st)
    ensures var o := HandleResult(st, sender, res);
      if res.sn !in st.rollbacks then o == Err(CallRequestNotFound)
      else if !MayDeliver(st, sender, st.rollbacks[res.sn].to.nid, st.rollbacks[res.sn].protocols)
      then o == Err(ProtocolsMismatch)
      else if Completes(st, sender, res) && ForeignReply(st, res) then o == Err(InvalidReplyReceived)
      else o.Ok?
  {
    hide Completes, Elements;
    if res.sn in st.rollbacks {
      assert MayDeliver(st, sender, st.rollbacks[res.sn].to.nid, st.rollbacks[res.sn].protocols) ==
        ValidSource(st, sender, st.rollbacks[res.sn].to.nid, st.rollbacks[res.sn].protocols);
      if ValidSource(st, sender, st.rollbacks[res.sn].to.nid, st.rollbacks[res.sn].protocols) {
        HeardCounts(st, sender, res);
        FewAreComplete(st, sender, res);
      }
    }
  }

  lemma FewAreComplete(st: State, sender: Addr, res: CSResult)
    requires res.sn in st.rollbacks
    ensures |st.rollbacks[res.sn].protocols| <= 1 ==> Completes(st, sender, res)
  {
  }

  /** An incomplete result is noted on its own pending list, and nothing else happens. */
  lemma ResultPending(st: State, sender: Addr, res: CSResult)
    requires ResponseListsOk(st) && HandleResult(st, sender, res).Ok? && !Completes(st, sender, res)
    ensures var st' := HandleResult(st, sender, res).value;
      var key := Keccak(res);
      && st' == st.(pendingResponses := st'.pendingResponses)
      && OthersSame(st.pendingResponses, st'.pendingResponses, key)
      && Elements(Lookup(st'.pendingResponses, key)) == Elements(Lookup(st.pendingResponses, key)) + {sender}
  {
    hide Elements;
    HeardCounts(st, sender, res);
  }

  /** A complete result ends the call or enables its rollback. A success removes the record and is
      recorded, and its reply, if it has one, is opened under the next request id over the record's own
      connections. A failure enables the record. Other records, lists and requests stay. */
  lemma ResultEffects(st: State, sender: Addr, res: CSResult)
    requires ResponseListsOk(st) && HandleResult(st, sender, res).Ok? && Completes(st, sender, res)
    ensures var st', record := HandleResult(st, sender, res).value, st.rollbacks[res.sn];
      && st' == st.(rollbacks := st'.rollbacks, successes := st'.successes, pendingResponses := st'.pendingResponses,
                    proxyRequests := st'.proxyRequests, lastReqId := st'.lastReqId)
      && OthersSame(st.rollbacks, st'.rollbacks, res.sn)
      && OthersSame(st.pendingResponses, st'.pendingResponses, Keccak(res))
      && (|record.protocols| > 1 ==> Keccak(res) !in st'.pendingResponses)
      && (res.code == Success ==>
            && res.sn !in st'.rollbacks && st'.successes == st.successes + {res.sn}
            && (if res.message.Reply? then OpensOne(st, st', res.message.request, record.protocols)
                else OpensNone(st, st')))
      && (res.code == Failure ==>
            && res.sn in st'.rollbacks && st'.rollbacks[res.sn] == record.(enabled := true)
            && st'.successes == st.successes && OpensNone(st, st'))
  {
    hide Elements, Completes, Conclude;
    HeardCounts(st, sender, res);
    FewAreComplete(st, sender, res);
    var mid := Settled(st, res);
    assert HandleResult(st, sender, res) == Conclude(mid, st.rollbacks[res.sn], res);
    ConcludeEffects(mid, st.rollbacks[res.sn], res);
  }

  lemma ConcludeEffects(st: State, record: Rollback, res: CSResult)
    requires Conclude(st, record, res).Ok?
    ensures var st' := Conclude(st, record, res).value;
      && st' == st.(rollbacks := st'.rollbacks, successes := st'.successes, proxyRequests := st'.proxyRequests,
                    lastReqId := st'.lastReqId)
      && OthersSame(st.rollbacks, st'.rollbacks, res.sn)
      && (res.code == Success ==>
            && res.sn !in st'.rollbacks && st'.successes == st.successes + {res.sn}
            && (if res.message.Reply? then OpensOne(st, st', res.message.request, record.protocols)
                else OpensNone(st, st')))
      && (res.code == Failure ==>
            && res.sn in st'.rollbacks && st'.rollbacks[res.sn] == record.(enabled := true)
            && st'.successes == st.successes && OpensNone(st, st'))
  {
  }

  // Over runs.

  /** The pending lists of results change only by results and expiry; so do results and agreements. */
  lemma ResponsesKept(c: Chain, step: Step)
    requires !step.Revert? && !(step.Deliver? && step.msg.ResultMessage?)
    requires step.Send? ==> IssuedOk(c)
    ensures var c' := Apply(c, step).0;
      && c'.h.results == c.h.results && c'.h.agreed == c.h.agreed && Sub(c.h.issued, c'.h.issued)
      && c'.h.succeeded == c.h.succeeded && c'.h.verdict == c.h.verdict && c.h.defaults <= c'.h.defaults
      && c'.st.pendingResponses == (if step.Vanish? && step.key.PendingResponseKey?
                                    then c.st.pendingResponses - {step.key.result} else c.st.pendingResponses)
  {
    hide SendCall, HandleRequest, HandleResult, ExecuteCall, ExecuteRollback, NoteRequest, NoteResult, IssuedRequest;
    match step
    case Send(_, _, _, _, _) => SendKeepsPending(c.st, step); SendKeepsCalls(c, step);
    case Deliver(sender, fromNid, msg) => RequestKeepsResponses(c, sender, fromNid, msg.request);
    case Execute(id, data, dappOk) =>
      if ExecuteCall(c.st, id, data, dappOk).Ok? { ExecuteRemoves(c.st, id, data, dappOk); }
    case RunRollback(n, dappOk) => RollbackKeepsPending(c.st, n, dappOk);
    case Vanish(_) =>
    case SetDefault(_, _) =>
  }

  lemma SendKeepsCalls(c: Chain, step: Step)
    requires step.Send? && IssuedOk(c)
    ensures Sub(c.h.issued, Apply(c, step).0.h.issued)
  {
    hide Apply;
    SendIssues(c, step);
  }

  lemma RequestKeepsResponses(c: Chain, sender: Addr, fromNid: Nid, r: CSRequest)
    ensures var o := HandleRequest(c.st, sender, fromNid, r);
      o.Ok? ==>
        && o.value.pendingResponses == c.st.pendingResponses
        && (var h := NoteRequest(c.h, c.st, o.value, sender, r);
            && h.results == c.h.results && h.agreed == c.h.agreed && h.issued == c.h.issued
            && h.succeeded == c.h.succeeded && h.verdict == c.h.verdict && h.defaults == c.h.defaults)
  {
  }

  /** While connections have not agreed on a result, every one that delivered it is on its pending list. */
  ghost predicate Pending(c: Chain, res: CSResult) {
    res !in c.h.agreed ==>
      forall a :: (a, res) in c.h.results ==>
        && res.sn in c.h.issued && |c.h.issued[res.sn].sources| > 1
        && a in Lookup(c.st.pendingResponses, Keccak(res))
  }

  /** What a result leaves behind. */
  lemma ResultNoted(c: Chain, sender: Addr, q: CSResult)
    requires RecordsOk(c)
    ensures var c' := ApplyResult(c, sender, q);
      c' == c || (
        && q.sn in c.st.rollbacks
        && c'.h.issued == c.h.issued && c'.h.results == c.h.results + {(sender, q)}
        && OthersSame(c.st.pendingResponses, c'.st.pendingResponses, Keccak(q))
        && (|| c'.h.agreed == c.h.agreed + {q}
            || (&& c'.h.agreed == c.h.agreed && |c.st.rollbacks[q.sn].protocols| > 1
                && Lookup(c'.st.pendingResponses, Keccak(q)) ==
                     Register(Lookup(c.st.pendingResponses, Keccak(q)), sender))))
  {
    hide HandleResult, NoteResult, RecordsOk, Completes, Register, RecordEnds, RecordEnabled;
    var c' := ApplyResult(c, sender, q);
    ResultEffect(c, sender, q);
    if c' != c && ResultConcludes(c, c', sender, q) {
      ListsOk(c);
      ConcludesOthers(c, sender, q);
    }
  }

  lemma ConcludesOthers(c: Chain, sender: Addr, q: CSResult)
    requires ResponseListsOk(c.st) && ResultComplete(c.st, sender, q)
    ensures var c' := ApplyResult(c, sender, q);
      OthersSame(c.st.pendingResponses, c'.st.pendingResponses, Keccak(q)) && c'.h.issued == c.h.issued
  {
    hide NoteResult;
    ConcludedState(c.st, sender, q);
    NoteKeepsIssued(c, sender, q);
  }

  lemma NoteKeepsIssued(c: Chain, sender: Addr, q: CSResult)
    ensures ApplyResult(c, sender, q).h.issued == c.h.issued
  {
    hide HandleResult, Concluded;
  }

  lemma ResultsPend(c: Chain, sender: Addr, q: CSResult, res: CSResult)
    requires RecordsOk(c) && Pending(c, res)
    ensures Pending(ApplyResult(c, sender, q), res)
  {
    hide ApplyResult, HandleResult, NoteResult;
    ResultNoted(c, sender, q);
    var c' := ApplyResult(c, sender, q);
    if c' != c && q != res {
      assert Lookup(c'.st.pendingResponses, Keccak(res)) == Lookup(c.st.pendingResponses, Keccak(res));
    }
  }

  lemma StepPends(c: Chain, step: Step, res: CSResult)
    requires RecordsOk(c) && Pending(c, res) && step != Vanish(PendingResponseKey(Keccak(res)))
    ensures Pending(Apply(c, step).0, res)
  {
    hide Apply, RecordsOk, ApplyResult;
    if step.Revert? || (step.Deliver? && step.msg.ResultMessage?) {
      ResultSteps(c, step);
      ResultsPend(c, step.sender, if step.Revert? then RevertResult(step.sn) else step.msg.result, res);
    } else {
      assert IssuedOk(c) by { CallsKnown(c); }
      ResponsesKept(c, step);
    }
  }

  lemma CallsKnown(c: Chain)
    requires RecordsOk(c)
    ensures IssuedOk(c)
  {
  }

  lemma {:induction false} RunPends(networkId: Nid, steps: seq<Step>, res: CSResult)
    requires Vanish(PendingResponseKey(Keccak(res))) !in steps
    ensures Pending(Run(Start(networkId), steps), res)
    decreases |steps|
  {
    hide Apply, Pending;
    if steps == [] {
      NothingPends(networkId, res);
    } else {
      var front := steps[..|steps| - 1];
      assert steps[|steps| - 1] in steps;
      RunPends(networkId, front, res);
      RunKeeps(networkId, front);
      StepPends(Run(Start(networkId), front), steps[|steps| - 1], res);
    }
  }

  lemma NothingPends(networkId: Nid, res: CSResult)
    ensures Pending(Start(networkId), res)
  {
  }

  /** What was agreed on was delivered by everybody concerned; a success is the call's only end. */
  ghost predicate AgreementsOk(h: History) {
    forall res :: res in h.agreed ==>
      && res.sn in h.issued && AllDelivered(h, h.issued[res.sn], res) && NoDup(h.issued[res.sn].sources)
      && (res.code == Success ==> h.succeeded[res.sn] > 0 && res.sn in h.verdict && h.verdict[res.sn] == res)
  }

  lemma ResultAgrees(c: Chain, sender: Addr, q: CSResult)
    requires RecordsOk(c) && EndsOk(c) && DefaultAccounting(c) && AgreementsOk(c.h)
    ensures AgreementsOk(ApplyResult(c, sender, q).h)
  {
    hide ApplyResult, RecordsOk, DefaultAccounting, VerdictsOk, ResultComplete;
    var c' := ApplyResult(c, sender, q);
    ResultEffect(c, sender, q);
    if c' != c && !XCallRuns.ResultPends(c, c', sender, q) {
      NoteKeepsIssued(c, sender, q);
      NoteKeepsDefaults(c, sender, q);
      CompleteIsVerdict(c, c'.h, sender, q);
      CompleteIsDistinct(c, sender, q);
    }
  }

  /** Connections that repeat are never all heard. */
  lemma CompleteIsDistinct(c: Chain, sender: Addr, q: CSResult)
    requires RecordsOk(c) && ResultComplete(c.st, sender, q)
    ensures q.sn in c.h.issued && NoDup(c.h.issued[q.sn].sources)
  {
    hide NoDup;
    var protocols := c.st.rollbacks[q.sn].protocols;
    if |protocols| > 1 && !NoDup(protocols) {
      var pending := Lookup(c.st.pendingResponses, Keccak(q));
      NothingRepeats();
      RegisterOk(pending, sender, protocols);
      Repetition(Register(pending, sender), protocols);
    }
    if |protocols| <= 1 { OneIsDistinct(protocols); }
  }

  lemma OneIsDistinct(s: seq<Addr>)
    requires |s| <= 1
    ensures NoDup(s)
  {
  }

  lemma NothingRepeats()
    ensures NoDup<Addr>([])
  {
  }

  lemma NoteKeepsDefaults(c: Chain, sender: Addr, q: CSResult)
    ensures ApplyResult(c, sender, q).h.defaults == c.h.defaults
  {
    hide HandleResult;
  }

  lemma StepAgrees(c: Chain, step: Step)
    requires RecordsOk(c) && EndsOk(c) && DefaultAccounting(c) && AgreementsOk(c.h)
    ensures AgreementsOk(Apply(c, step).0.h)
  {
    hide Apply, RecordsOk, EndsOk, DefaultAccounting, ApplyResult;
    if step.Revert? || (step.Deliver? && step.msg.ResultMessage?) {
      ResultSteps(c, step);
      ResultAgrees(c, step.sender, if step.Revert? then RevertResult(step.sn) else step.msg.result);
    } else {
      assert IssuedOk(c) by { CallsKnown(c); }
      ResponsesKept(c, step);
    }
  }

  lemma {:induction false} RunAgrees(networkId: Nid, steps: seq<Step>)
    ensures AgreementsOk(Run(Start(networkId), steps).h)
    decreases |steps|
  {
    hide Apply, AgreementsOk;
    if steps == [] {
      NothingAgreed(networkId);
    } else {
      RunAgrees(networkId, steps[..|steps| - 1]);
      RunKeeps(networkId, steps[..|steps| - 1]);
      StepAgrees(Run(Start(networkId), steps[..|steps| - 1]), steps[|steps| - 1]);
    }
  }

  lemma NothingAgreed(networkId: Nid)
    ensures AgreementsOk(Start(networkId).h)
  {
  }

  /** Agreement concludes: in every run in which its pending list does not expire, a result was acted on if
      and only if all connections of its call have delivered it and none of them is listed twice. */
  lemma AgreementConcludes(networkId: Nid, steps: seq<Step>, res: CSResult)
    requires Vanish(PendingResponseKey(Keccak(res))) !in steps
    requires res.sn in Run(Start(networkId), steps).h.issued
    ensures var h := Run(Start(networkId), steps).h;
      var sources := h.issued[res.sn].sources;
      && (res in h.agreed <==>
            NoDup(sources) && (if sources == [] then exists a :: (a, res) in h.results
                               else forall a :: a in sources ==> (a, res) in h.results))
      && (res in h.agreed && res.code == Success ==>
            h.succeeded[res.sn] == 1 && res.sn in h.verdict && h.verdict[res.sn] == res)
  {
    hide Run, PendingRequestsOk, OpeningsOk;
    var c := Run(Start(networkId), steps);
    RunPends(networkId, steps, res);
    RunKeeps(networkId, steps);
    RunAgrees(networkId, steps);
    var sources := c.h.issued[res.sn].sources;
    if res !in c.h.agreed && NoDup(sources) && sources != [] && forall a :: a in sources ==> (a, res) in c.h.results {
      var p := Lookup(c.st.pendingResponses, Keccak(res));
      assert sources[0] in p;
      FullListHasAll(sources, p);
      assert false;
    }
  }

  // -------------------------------------------------------------------- replies

  /** Every success that carries a reply opened it, once; and nothing else opens replies. */
  ghost predicate RepliesOk(h: History) {
    && (forall res :: res in h.agreed && res.code == Success && res.message.Reply? ==>
          exists id :: id in h.origin && h.origin[id] == FromReply(res))
    && (forall id :: id in h.origin && h.origin[id].FromReply? ==>
          var res := h.origin[id].result;
          res in h.agreed && res.code == Success && res.message.Reply? && h.succeeded[res.sn] > 0)
    && (forall i, j ::
          && i in h.origin && j in h.origin && h.origin[i].FromReply? && h.origin[j].FromReply?
          && h.origin[i].result.sn == h.origin[j].result.sn
          ==> i == j)
  }

  /** What a complete result leaves in the history. */
  lemma ConcludesNoted(c: Chain, sender: Addr, q: CSResult)
    requires ResultComplete(c.st, sender, q) && ResponseListsOk(c.st) && HandleResult(c.st, sender, q).Ok?
    ensures var h, h' := c.h, ApplyResult(c, sender, q).h;
      && h'.agreed == h.agreed + {q}
      && h'.succeeded == (if q.code == Success then h.succeeded + multiset{q.sn} else h.succeeded)
      && h'.origin == (if q.code == Success && q.message.Reply? then h.origin[c.st.lastReqId + 1 := FromReply(q)]
                       else h.origin)
  {
    hide HandleResult, NoteResult, Elements, ResponseListsOk;
    ConcludedState(c.st, sender, q);
    ConcludedHistory(c, sender, q);
    assert Completes(c.st, sender, q) by { CompleteIsAll(c.st, sender, q); }
    ResultEffects(c.st, sender, q);
  }

  lemma CompleteIsAll(st: State, sender: Addr, res: CSResult)
    requires ResultComplete(st, sender, res) && ResponseListsOk(st)
    ensures Completes(st, sender, res)
  {
    hide Elements, Completes, ResponseListsOk;
    HeardCounts(st, sender, res);
    FewAreComplete(st, sender, res);
  }

  lemma ResultReplies(c: Chain, sender: Addr, q: CSResult)
    requires RecordsOk(c) && OneEnd(c) && IdsDense(c) && RepliesOk(c.h)
    ensures RepliesOk(ApplyResult(c, sender, q).h)
  {
    hide ApplyResult, RecordsOk, ResultComplete, HandleResult, ResponseListsOk;
    var c' := ApplyResult(c, sender, q);
    ResultEffect(c, sender, q);
    if c' != c && !XCallRuns.ResultPends(c, c', sender, q) {
      ListsOk(c);
      AcceptedIfChanged(c, sender, q);
      ConcludesNoted(c, sender, q);
      ReplyNoted(c, c'.h, q);
    }
  }

  lemma AcceptedIfChanged(c: Chain, sender: Addr, q: CSResult)
    requires ApplyResult(c, sender, q) != c
    ensures HandleResult(c.st, sender, q).Ok? && q.sn in c.st.rollbacks
  {
    hide NoteResult;
  }

  lemma ReplyNoted(c: Chain, h': History, q: CSResult)
    requires OneEnd(c) && IdsDense(c) && RepliesOk(c.h) && q.sn in c.st.rollbacks
    requires h'.agreed == c.h.agreed + {q}
    requires h'.succeeded == if q.code == Success then c.h.succeeded + multiset{q.sn} else c.h.succeeded
    requires h'.origin == if q.code == Success && q.message.Reply? then c.h.origin[c.st.lastReqId + 1 := FromReply(q)]
      else c.h.origin
    ensures RepliesOk(h')
  {
    var id := c.st.lastReqId + 1;
    assert c.h.succeeded[q.sn] == 0 && id !in c.h.origin;
    forall res | res in h'.agreed && res.code == Success && res.message.Reply?
      ensures exists i :: i in h'.origin && h'.origin[i] == FromReply(res)
    {
      if res == q {
        assert h'.origin[id] == FromReply(q);
      } else {
        var i :| i in c.h.origin && c.h.origin[i] == FromReply(res);
        assert i in h'.origin && h'.origin[i] == FromReply(res);
      }
    }
  }

  lemma RequestReplies(c: Chain, sender: Addr, fromNid: Nid, r: CSRequest)
    requires IdsDense(c) && RepliesOk(c.h)
    ensures RepliesOk(ApplyRequest(c, sender, fromNid, r).h)
  {
    hide HandleRequest, NoteRequest, ApplyRequest;
    var c' := ApplyRequest(c, sender, fromNid, r);
    RequestOpens(c, sender, fromNid, r);
    RequestLeaves(c, sender, fromNid, r);
    if ProxyOpens(c, c', FromRequest(r), Proxy(r, r.protocols)) {
      assert c'.st.lastReqId !in c.h.origin;
      forall res | res in c'.h.agreed && res.code == Success && res.message.Reply?
        ensures exists i :: i in c'.h.origin && c'.h.origin[i] == FromReply(res)
      {
        var i :| i in c.h.origin && c.h.origin[i] == FromReply(res);
        assert i in c'.h.origin && c'.h.origin[i] == FromReply(res);
      }
    }
  }

  lemma RequestLeaves(c: Chain, sender: Addr, fromNid: Nid, r: CSRequest)
    ensures var h' := ApplyRequest(c, sender, fromNid, r).h; h'.agreed == c.h.agreed && h'.succeeded == c.h.succeeded
  {
    hide HandleRequest;
    RequestKeepsResponses(c, sender, fromNid, r);
  }

  lemma OriginsKept(c: Chain, step: Step)
    requires !step.Deliver? && !step.Revert?
    ensures Apply(c, step).0.h.origin == c.h.origin
  {
    hide SendCall, ExecuteCall, ExecuteRollback;
  }

  lemma StepReplies(c: Chain, step: Step)
    requires Inv(c) && RepliesOk(c.h)
    ensures RepliesOk(Apply(c, step).0.h)
  {
    hide Apply, RequestsOk, DefaultAccounting, RecordsOk, VerdictsOk, ProxiesMatch, ExecutedOnce, OriginsCounted,
      ApplyResult, ApplyRequest;
    if step.Revert? || (step.Deliver? && step.msg.ResultMessage?) {
      ResultSteps(c, step);
      ResultReplies(c, step.sender, if step.Revert? then RevertResult(step.sn) else step.msg.result);
    } else if step.Deliver? {
      RequestSteps(c, step);
      RequestReplies(c, step.sender, step.fromNid, step.msg.request);
    } else {
      assert IssuedOk(c) by { CallsKnown(c); }
      ResponsesKept(c, step);
      OriginsKept(c, step);
    }
  }

  /** Over every run: each success that carries a reply is the origin of exactly one request id, and the
      proxy request there, until executed or expired, is the reply over the call's own connections. */
  lemma ReplyOpenedOnce(networkId: Nid, steps: seq<Step>, res: CSResult)
    requires res in Run(Start(networkId), steps).h.agreed && res.code == Success && res.message.Reply?
    ensures var c := Run(Start(networkId), steps);
      exists id ::
        && id in c.h.origin && c.h.origin[id] == FromReply(res)
        && (forall j :: j in c.h.origin && c.h.origin[j] == FromReply(res) ==> j == id)
        && (id in c.st.proxyRequests ==>
              res.sn in c.h.issued && HeldAs(c.st, id, res.message.request, c.h.issued[res.sn].sources))
  {
    hide Run, RequestsOk, DefaultAccounting, RecordsOk, EndsOk, IdsDense, ExecutedOnce, OriginsCounted;
    var c := Run(Start(networkId), steps);
    RunReplies(networkId, steps);
    RunKeeps(networkId, steps);
    var id :| id in c.h.origin && c.h.origin[id] == FromReply(res);
    if id in c.st.proxyRequests { assert ProxyOf(c.h, c.h.origin[id], c.st.proxyRequests[id]); }
  }

  lemma {:induction false} RunReplies(networkId: Nid, steps: seq<Step>)
    ensures RepliesOk(Run(Start(networkId), steps).h)
    decreases |steps|
  {
    hide Apply, RepliesOk;
    if steps == [] {
      NoReplies(networkId);
    } else {
      RunReplies(networkId, steps[..|steps| - 1]);
      RunKeeps(networkId, steps[..|steps| - 1]);
      StepReplies(Run(Start(networkId), steps[..|steps| - 1]), steps[|steps| - 1]);
    }
  }

  lemma NoReplies(networkId: Nid)
    ensures RepliesOk(Start(networkId).h)
  {
  }

  // ------------------------------------------------------------------ execution

  /** Where messages to a network go: over these connections, all of them addresses, in this order. */
  ghost predicate GoesOver(st: State, nid: Nid, listed: seq<Addr>, connections: seq<Addr>) {
    && (if listed != [] then connections == listed
        else nid in st.defaultConnections && connections == [st.defaultConnections[nid]])
    && forall a :: a in connections ==> |a| == 56
  }

  /** One copy of the message per connection, in order. */
  ghost predicate Copies(out: seq<Outgoing>, connections: seq<Addr>, nid: Nid, msg: CSMessage) {
    |out| == |connections| && forall i :: 0 <= i < |out| ==> out[i] == Outgoing(connections[i], nid, msg)
  }

  lemma RouteMeans(st: State, nid: Nid, listed: seq<Addr>)
    ensures var route := Route(st, nid, listed);
      && (route.Ok? <==> exists connections :: GoesOver(st, nid, listed, connections))
      && (route.Ok? ==> GoesOver(st, nid, listed, route.value))
      && (route.Err? ==>
            route.error == if listed == [] && nid !in st.defaultConnections then NoDefaultConnection
              else InvalidAddress)
  {
    var route := Route(st, nid, listed);
    if listed != [] || nid in st.defaultConnections {
      var connections := if listed == [] then [st.defaultConnections[nid]] else listed;
      if AllAddresses(connections) {
        assert GoesOver(st, nid, listed, connections);
      } else {
        var i :| 0 <= i < |connections| && !IsAddress(connections[i]);
        assert connections[i] in connections;
      }
    }
  }

  /** Executing a waiting request with its data, for a dapp that is an address: exactly that request is
      used up. A one-way call sends nothing, whether its dapp succeeds or not. A persisted call sends
      nothing and needs its dapp to succeed; otherwise nothing happens and it can be tried again. A call
      with rollback sends its outcome over every connection it came in over, and needs a way there. */
  lemma ExecuteEffects(st: State, id: nat, data: bytes, dappOk: bool)
    requires id in st.proxyRequests && st.proxyRequests[id].data == Keccak(data) && |st.proxyRequests[id].to| == 56
    ensures var o, p := ExecuteCall(st, id, data, dappOk), st.proxyRequests[id];
      && (o.Ok? ==>
            && OthersSame(st.proxyRequests, o.value.0.proxyRequests, id) && id !in o.value.0.proxyRequests
            && o.value.0 == st.(proxyRequests := o.value.0.proxyRequests))
      && (p.msgType == Call ==> o.Ok? && o.value.1 == [])
      && (p.msgType == CallPersisted ==> if dappOk then o.Ok? && o.value.1 == [] else o == Err(DappPanicked))
      && (p.msgType == CallWithRollback ==>
            && (o.Ok? <==> exists connections :: GoesOver(st, p.from.nid, p.protocols, connections))
            && (o.Ok? ==>
                  exists connections ::
                    && GoesOver(st, p.from.nid, p.protocols, connections)
                    && Copies(o.value.1, connections, p.from.nid,
                         ResultMessage(CSResult(p.sn, if dappOk then Success else Failure, Empty)))))
  {
    hide Route, GoesOver;
    var p := st.proxyRequests[id];
    var route := Route(st, p.from.nid, p.protocols);
    RouteMeans(st, p.from.nid, p.protocols);
    RouteSame(st, st.(proxyRequests := st.proxyRequests - {id}), p.from.nid, p.protocols);
    var o := ExecuteCall(st, id, data, dappOk);
    if p.msgType == CallWithRollback && o.Ok? {
      assert Copies(o.value.1, route.value, p.from.nid, ResultMessage(CSResult(p.sn, CodeOf(dappOk), Empty)));
    }
  }

  lemma RouteSame(st: State, st1: State, nid: Nid, listed: seq<Addr>)
    requires st1.defaultConnections == st.defaultConnections
    ensures Route(st1, nid, listed) == Route(st, nid, listed)
  {
  }

  /** Any other attempt is refused, whatever the dapp would do. */
  lemma ExecuteRefused(st: State, id: nat, data: bytes, dappOk: bool)
    ensures var o := ExecuteCall(st, id, data, dappOk);
      && (id !in st.proxyRequests ==> o == Err(InvalidRequestId))
      && (id in st.proxyRequests && st.proxyRequests[id].data != Keccak(data) ==> o == Err(DataMismatch))
      && (id in st.proxyRequests && st.proxyRequests[id].data == Keccak(data) && |st.proxyRequests[id].to| != 56 ==>
            o == Err(InvalidAddress))
  {
  }

  function KindOf(origin: Origin): MessageType {
    match origin
    case FromRequest(r) => r.msgType
    case FromReply(m) => if m.message.Reply? then m.message.request.msgType else Call
  }

  /** Executed persisted calls have succeeded. */
  ghost predicate PersistedOk(h: History) {
    forall id :: id in h.outcome && id in h.origin && KindOf(h.origin[id]) == CallPersisted ==>
      h.outcome[id] == Success
  }

  lemma ExecuteNoted(c: Chain, id: nat, data: bytes, dappOk: bool)
    requires ProxiesMatch(c) && PersistedOk(c.h)
    ensures PersistedOk(Apply(c, Execute(id, data, dappOk)).0.h)
  {
    hide ExecuteCall;
    ExecuteRefused(c.st, id, data, dappOk);
    if ExecuteCall(c.st, id, data, dappOk).Ok? {
      ExecuteEffects(c.st, id, data, dappOk);
      assert ProxyOf(c.h, c.h.origin[id], c.st.proxyRequests[id]);
    }
  }

  /** Deliveries add origins under new ids and execute nothing. */
  lemma DeliveryExecutesNothing(c: Chain, step: Step)
    requires IdsDense(c) && (step.Deliver? || step.Revert?)
    ensures Apply(c, step).0.h.outcome == c.h.outcome && Sub(c.h.origin, Apply(c, step).0.h.origin)
  {
    hide Apply, ApplyResult, ApplyRequest, ResultComplete;
    if step.Deliver? && step.msg.RequestMessage? {
      RequestSteps(c, step);
      RequestOpens(c, step.sender, step.fromNid, step.msg.request);
    } else {
      ResultSteps(c, step);
      ResultOpens(c, step.sender, if step.Revert? then RevertResult(step.sn) else step.msg.result);
    }
  }

  lemma StepPersisted(c: Chain, step: Step)
    requires IdsDense(c) && ProxiesMatch(c) && ExecutedOnce(c) && PersistedOk(c.h)
    ensures PersistedOk(Apply(c, step).0.h)
  {
    hide Apply, ProxiesMatch;
    if step.Execute? {
      ExecuteNoted(c, step.reqId, step.data, step.dappOk);
    } else if step.Deliver? || step.Revert? {
      DeliveryExecutesNothing(c, step);
    } else {
      OriginsKept(c, step);
      OutcomesKept(c, step);
    }
  }

  lemma OutcomesKept(c: Chain, step: Step)
    requires !step.Deliver? && !step.Revert? && !step.Execute?
    ensures Apply(c, step).0.h.outcome == c.h.outcome
  {
    hide SendCall, ExecuteRollback;
  }

  /** Over every run: no persisted call was ever used up by a dapp that failed. */
  lemma {:induction false} PersistedNeverFails(networkId: Nid, steps: seq<Step>)
    ensures PersistedOk(Run(Start(networkId), steps).h)
    decreases |steps|
  {
    hide Apply, PersistedOk;
    if steps == [] {
      NothingPersisted(networkId);
    } else {
      PersistedNeverFails(networkId, steps[..|steps| - 1]);
      RunKeeps(networkId, steps[..|steps| - 1]);
      StepPersisted(Run(Start(networkId), steps[..|steps| - 1]), steps[|steps| - 1]);
    }
  }

  lemma NothingPersisted(networkId: Nid)
    ensures PersistedOk(Start(networkId).h)
  {
  }

  // ------------------------------------------------------------------ rollbacks

  /** A rollback is executed exactly when its record is enabled and its dapp succeeds; then that record
      is gone and nothing else has changed. */
  lemma RollbackEffects(st: State, n: nat, dappOk: bool)
    ensures var o := ExecuteRollback(st, n, dappOk);
      && (n !in st.rollbacks ==> o == Err(CallRequestNotFound))
      && (n in st.rollbacks && !st.rollbacks[n].enabled ==> o == Err(RollbackNotEnabled))
      && (n in st.rollbacks && st.rollbacks[n].enabled && !dappOk ==> o == Err(DappPanicked))
      && (n in st.rollbacks && st.rollbacks[n].enabled && dappOk ==>
            && o.Ok? && n !in o.value.rollbacks && OthersSame(st.rollbacks, o.value.rollbacks, n)
            && o.value == st.(rollbacks := o.value.rollbacks))
  {
  }

  /** Over every run: a rollback whose dapp fails changes neither storage nor history and sends nothing,
      and an enabled one can be executed afterwards. */
  lemma FailedRollbackStays(networkId: Nid, steps: seq<Step>, n: nat)
    ensures Run(Start(networkId), steps + [RunRollback(n, false)]) == Run(Start(networkId), steps)
    ensures var c := Run(Start(networkId), steps);
      n in c.st.rollbacks && c.st.rollbacks[n].enabled ==>
        var c' := Run(Start(networkId), steps + [RunRollback(n, false)] + [RunRollback(n, true)]);
        c'.h == c.h.(rolledBack := c.h.rolledBack + multiset{n}) && n !in c'.st.rollbacks && c'.h.rolledBack[n] == 1
  {
    hide ExecuteRollback, RequestsOk, DefaultAccounting, RecordsOk, VerdictsOk, OpeningsOk;
    var c := Run(Start(networkId), steps);
    var failed := steps + [RunRollback(n, false)];
    assert failed[..|steps|] == steps && (failed + [RunRollback(n, true)])[..|failed|] == failed;
    RollbackEffects(c.st, n, false);
    RollbackEffects(c.st, n, true);
    RunKeeps(networkId, steps);
  }

  // ------------------------------------------------------------ sending, storage

  /** Which sends are accepted. */
  ghost predicate Sendable(st: State, isContract: bool, envelope: Envelope, to: NetworkAddress, size: nat) {
    && (envelope.message.CallMessageWithRollback? ==> isContract && 1 <= |envelope.message.rollback| <= 1024)
    && size <= 2048 && exists connections :: GoesOver(st, to.nid, envelope.sources, connections)
  }

  /** An accepted send takes the next number, stores a record if and only if it asks for a rollback, and
      hands its request to every connection. */
  lemma SendEffects(st: State, sender: Addr, isContract: bool, envelope: Envelope, to: NetworkAddress, size: nat)
    ensures var o, m, n := SendCall(st, sender, isContract, envelope, to, size), envelope.message, st.sn + 1;
      && (o.Ok? <==> Sendable(st, isContract, envelope, to, size))
      && (o.Ok? ==>
            && o.value.0 == st.(sn := n, rollbacks := o.value.0.rollbacks)
            && (if m.CallMessageWithRollback? then
                  && OthersSame(st.rollbacks, o.value.0.rollbacks, n) && n in o.value.0.rollbacks
                  && o.value.0.rollbacks[n] == Rollback(sender, to, envelope.sources, m.rollback, false)
                else o.value.0.rollbacks == st.rollbacks)
            && (exists connections ::
                  && GoesOver(st, to.nid, envelope.sources, connections)
                  && Copies(o.value.1, connections, to.nid, RequestMessage(
                       CSRequest(NetworkAddress(st.networkId, sender), to.account, n, Kind(m), m.data,
                         envelope.destinations)))))
  {
    hide Route, GoesOver;
    var route := Route(st, to.nid, envelope.sources);
    RouteMeans(st, to.nid, envelope.sources);
    SameRoutes(st, to.nid, envelope.sources);
    var o := SendCall(st, sender, isContract, envelope, to, size);
    if o.Ok? {
      assert Copies(o.value.1, route.value, to.nid, RequestMessage(IssuedRequest(st, sender, envelope, to)));
    }
  }

  function Kind(m: AnyMessage): MessageType {
    if m.CallMessage? then Call else if m.CallMessageWithRollback? then CallWithRollback else CallPersisted
  }

  lemma SameRoutes(st: State, nid: Nid, listed: seq<Addr>)
    ensures forall st1: State :: st1.defaultConnections == st.defaultConnections ==>
      Route(st1, nid, listed) == Route(st, nid, listed)
  {
  }

  /** A refused send says why, in this order. */
  lemma SendRefused(st: State, sender: Addr, isContract: bool, envelope: Envelope, to: NetworkAddress, size: nat)
    ensures var o, m := SendCall(st, sender, isContract, envelope, to, size), envelope.message;
      if m.CallMessageWithRollback? && !isContract then o == Err(RollbackNotPossible)
      else if m.CallMessageWithRollback? && m.rollback == [] then o == Err(NoRollbackData)
      else if m.CallMessageWithRollback? && |m.rollback| > 1024 then o == Err(MaxRollbackSizeExceeded)
      else if size > 2048 then o == Err(MaxDataSizeExceeded)
      else if envelope.sources == [] && to.nid !in st.defaultConnections then o == Err(NoDefaultConnection)
      else if exists i :: 0 <= i < |envelope.sources| && |envelope.sources[i]| != 56 then o == Err(InvalidAddress)
      else if envelope.sources == [] && |st.defaultConnections[to.nid]| != 56 then o == Err(InvalidAddress)
      else o.Ok?
  {
    hide SendVia;
    if envelope.sources == [] && to.nid in st.defaultConnections {
      var a := st.defaultConnections[to.nid];
      assert AllAddresses([a]) <==> |a| == 56 by { assert [a][0] == a; }
    }
  }

  /** A default connection is set for its network, and nothing else. */
  lemma DefaultEffects(st: State, nid: Nid, a: Addr)
    ensures var st' := SetDefaultConnection(st, nid, a);
      && nid in st'.defaultConnections && st'.defaultConnections[nid] == a
      && OthersSame(st.defaultConnections, st'.defaultConnections, nid)
      && st' == st.(defaultConnections := st'.defaultConnections)
  {
  }

  /** What expires is gone, and nothing else. */
  lemma ExpireEffects(st: State, key: TemporaryKey)
    ensures var st' := Expire(st, key);
      && st' == st.(rollbacks := st'.rollbacks, proxyRequests := st'.proxyRequests,
                    pendingRequests := st'.pendingRequests, pendingResponses := st'.pendingResponses)
      && (if key.RollbackKey? then key.sn !in st'.rollbacks && OthersSame(st.rollbacks, st'.rollbacks, key.sn)
          else st'.rollbacks == st.rollbacks)
      && (if key.ProxyKey? then
            key.reqId !in st'.proxyRequests && OthersSame(st.proxyRequests, st'.proxyRequests, key.reqId)
          else st'.proxyRequests == st.proxyRequests)
      && (if key.PendingRequestKey? then
            key.request !in st'.pendingRequests && OthersSame(st.pendingRequests, st'.pendingRequests, key.request)
          else st'.pendingRequests == st.pendingRequests)
      && (if key.PendingResponseKey? then
            key.result !in st'.pendingResponses && OthersSame(st.pendingResponses, st'.pendingResponses, key.result)
          else st'.pendingResponses == st.pendingResponses)
  {
  }

  /** Over every run: no delivered request claims to come from the contract's own network. */
  lemma {:induction false} ForeignOnly(networkId: Nid, steps: seq<Step>, a: Addr, r: CSRequest)
    requires (a, r) in Run(Start(networkId), steps).h.delivered
    ensures r.from.nid != networkId
    decreases |steps|
  {
    hide Apply, HandleMessage;
    var front, step := steps[..|steps| - 1], steps[|steps| - 1];
    var c := Run(Start(networkId), front);
    OwnNetwork(networkId, front);
    if (a, r) in c.h.delivered {
      ForeignOnly(networkId, front, a, r);
    } else if step.Deliver? && step.msg.RequestMessage? {
      DeliveryNoted(c, step.sender, step.fromNid, step.msg.request);
      RequestAccepted(c.st, step.sender, step.fromNid, step.msg.request);
    } else {
      PendingKept(c, step);
    }
  }

  lemma {:induction false} OwnNetwork(networkId: Nid, steps: seq<Step>)
    ensures Run(Start(networkId), steps).st.networkId == networkId
    decreases |steps|
  {
    hide Apply;
    if steps != [] {
      OwnNetwork(networkId, steps[..|steps| - 1]);
      OwnNetworkStays(Run(Start(networkId), steps[..|steps| - 1]), steps[|steps| - 1]);
    }
  }

  lemma OwnNetworkStays(c: Chain, step: Step)
    ensures Apply(c, step).0.st.networkId == c.st.networkId
  {
    hide Apply;
    match step
    case Send(_, _, _, _, _) => SendIssues(c, step);
    case Deliver(sender, fromNid, msg) =>
      if msg.RequestMessage? {
        RequestSteps(c, step);
        RequestFramesResults(c, sender, fromNid, msg.request);
      } else {
        ResultSteps(c, step);
        ResultEffect(c, sender, msg.result);
      }
    case Revert(sender, n) =>
      ResultSteps(c, step);
      ResultEffect(c, sender, RevertResult(n));
    case Execute(_, _, _) => ExecuteFrames(c, step);
    case RunRollback(n, dappOk) => RollbackKeepsNetwork(c, step);
    case Vanish(_) => VanishFrames(c, step);
    case SetDefault(_, _) => SetDefaultFrames(c, step);
  }

  lemma RollbackKeepsNetwork(c: Chain, step: Step)
    requires step.RunRollback?
    ensures Apply(c, step).0.st.networkId == c.st.networkId
  {
    hide ExecuteRollback;
    RollbackEffects(c.st, step.sn, step.dappOk);
  }
}
