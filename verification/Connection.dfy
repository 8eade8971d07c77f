/**
 A centralized connection as it is written: it numbers what the contract asks it to send, and hands
 over what its relayer brings, each number of a network once. The two-chain model keeps one log and
 one receipt set per connection; the methods here are proved against its steps.
 */
module Connection {
  import opened XCall
  import opened XCallRuns
  import opened CrossChain
  import opened XCallContract

  datatype Event = SendMessage(to: Nid, connSn: nat, message: CSMessage)

  datatype Failed = OnlyXCall | OnlyAdmin | DuplicateMessage | FeeNotPaid | Refused(error: Error)

  datatype Done = Done | Aborted(why: Failed)

  class Connection {
    const address: Addr
    const xcallAddress: Addr
    const xcall: Contract
    var admin: Addr
    var connSn: nat
    var receipts: set<(Nid, nat)>
    var events: seq<Event>

    /** Serial numbers are handed out in order from one. */
    ghost predicate Valid()
      reads this
    {
      connSn == |events| && forall i :: 0 <= i < |events| ==> events[i].connSn == i + 1
    }

    /** The log entries of the two-chain model. */
    ghost function Log(): (log: seq<Outgoing>)
      reads this
      ensures |log| == |events|
    {
      seq(|events|, i requires 0 <= i < |events| reads this => Outgoing(address, events[i].to, events[i].message))
    }

    /** Receipts for network `nid` are those node `d` keeps for this connection. */
    ghost predicate SameReceipts(d: Node, nid: Nid)
      reads this
    {
      forall k: nat :: (address, k) in d.receipts <==> (nid, k + 1) in receipts
    }

    constructor (address_: Addr, relayer: Addr, xcallAddress_: Addr, xcall_: Contract)
      ensures Valid() && Log() == [] && address == address_ && admin == relayer && xcallAddress == xcallAddress_
        && xcall == xcall_
      ensures receipts == {}
    {
      address, admin, xcallAddress, xcall := address_, relayer, xcallAddress_, xcall_;
      connSn, receipts, events := 0, {}, [];
    }

    /** Accepted messages are appended to the log, under the next serial number. */
    method Send(caller: Addr, to: Nid, message: CSMessage, feePaid: bool, ghost log: map<Addr, seq<Outgoing>>)
        returns (r: Done)
      requires Valid() && Lookup(log, address) == Log()
      modifies this`connSn, this`events
      ensures Valid()
      ensures r == if caller != xcallAddress then Aborted(OnlyXCall) else if !feePaid then Aborted(FeeNotPaid) else Done
      ensures Log() == if r == Done then Lookup(Post(log, [Outgoing(address, to, message)]), address) else old(Log())
      ensures r == Done ==> events == old(events) + [Event.SendMessage(to, old(connSn) + 1, message)]
    {
      if caller != xcallAddress { return Aborted(OnlyXCall); }
      var before := connSn;
      connSn := connSn + 1;
      if !feePaid {
        connSn := before;
        return Aborted(FeeNotPaid);
      }
      ghost var o := Outgoing(address, to, message);
      assert [o][..0] == [];
      assert Post(log, [o]) == log[address := Lookup(log, address) + [o]];
      events := events + [Event.SendMessage(to, connSn, message)];
      return Done;
    }

    /** All or nothing: the receipt is kept only when the contract takes the message. */
    method Recv(caller: Addr, srcNetwork: Nid, serial: nat, message: CSMessage) returns (r: Done)
      modifies this`receipts, xcall
      ensures var taken := XCall.HandleMessage(old(xcall.Storage()), address, srcNetwork, message);
        if caller == admin && (srcNetwork, serial) !in old(receipts) && taken.Ok?
        then r == Done && receipts == old(receipts) + {(srcNetwork, serial)} && xcall.Storage() == taken.value
        else r != Done && receipts == old(receipts) && xcall.Storage() == old(xcall.Storage())
      ensures r == if caller != admin then Aborted(OnlyAdmin)
        else if (srcNetwork, serial) in old(receipts) then Aborted(DuplicateMessage)
        else match XCall.HandleMessage(old(xcall.Storage()), address, srcNetwork, message)
          case Ok(_) => Done
          case Err(e) => Aborted(Refused(e))
    {
      if caller != admin { return Aborted(OnlyAdmin); }
      if (srcNetwork, serial) in receipts { return Aborted(DuplicateMessage); }
      var before := receipts;
      receipts := receipts + {(srcNetwork, serial)};
      var handled := xcall.HandleMessage(address, srcNetwork, message);
      if handled.Err? {
        receipts := before;
        return Aborted(Refused(handled.error));
      }
      return Done;
    }

    method RevertMessage(caller: Addr, sn: nat) returns (r: Done)
      modifies xcall
      ensures var taken := XCall.HandleError(old(xcall.Storage()), address, sn);
        if caller == admin && taken.Ok? then r == Done && xcall.Storage() == taken.value
        else (
          && r == (if caller != admin then Aborted(OnlyAdmin) else Aborted(Refused(taken.error)))
          && xcall.Storage() == old(xcall.Storage()))
    {
      if caller != admin { return Aborted(OnlyAdmin); }
      var handled := xcall.HandleError(address, sn);
      if handled.Err? { return Aborted(Refused(handled.error)); }
      return Done;
    }

    /** A relayer that brings entry `k` of the peer's log does the relay step of the two-chain model,
        on the contract's storage and on the receipts. */
    method Relay(ghost d: Node, ghost s: Node, peer: Addr, srcNetwork: Nid, entries: seq<Outgoing>, k: nat)
        returns (r: Done)
      requires d.chain.st == xcall.Storage() && s.chain.st.networkId == srcNetwork && entries == Lookup(s.log, peer)
      requires k < |entries| && entries[k].nid == d.chain.st.networkId && SameReceipts(d, srcNetwork)
      modifies this`receipts, xcall
      ensures var d' := RelayStep(d, s, address, peer, k);
        xcall.Storage() == d'.chain.st && SameReceipts(d', srcNetwork) && (r == Done <==> d' != d)
    {
      var caller := admin;
      hide HandleRequest, HandleResult;
      r := Recv(caller, srcNetwork, k + 1, entries[k].message);
    }
  }
}
