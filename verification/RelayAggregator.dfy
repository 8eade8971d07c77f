/**
 The relay aggregator: an array of relayers with a lookup table beside it, and packets that are
 acknowledged once enough relayers have signed them.
 */
module RelayAggregator {
  import opened Bytes
  import Runs = XCallRuns

  type Addr = string
  type PacketId = bytes

  // ------------------------------------------------------------ relayers as values

  predicate NoDup(s: seq<Addr>) { Runs.NoDup(s) }

  function Members(s: seq<Addr>): set<Addr> { set a | a in s }

  /** Appends the newcomers, each once. */
  function Added(rs: seq<Addr>, more: seq<Addr>): seq<Addr>
    decreases |more|
  {
    if more == [] then rs else
    var rs1 := Added(rs, more[..|more| - 1]);
    var a := more[|more| - 1];
    if a in rs1 then rs1 else rs1 + [a]
  }

  /** The last relayer takes the place of the one removed. */
  function RemovedAt(rs: seq<Addr>, i: nat): (r: seq<Addr>)
    requires i < |rs|
    ensures |r| == |rs| - 1
  {
    if i == |rs| - 1 then rs[..i] else rs[..|rs| - 1][i := rs[|rs| - 1]]
  }

  /** The removal loop from position `i`: after a removal it moves on, past the one swapped in. */
  function Sweep(rs: seq<Addr>, i: nat, keep: set<Addr>): seq<Addr>
    decreases |rs| - i
  {
    if i >= |rs| then rs
    else if rs[i] in keep then Sweep(rs, i + 1, keep)
    else Sweep(RemovedAt(rs, i), i + 1, keep)
  }

  predicate Kept(rs: seq<Addr>, keep: set<Addr>) { forall j :: 0 <= j < |rs| ==> rs[j] in keep }

  /** Relayers from position `i` on that are to go. */
  function Stale(rs: seq<Addr>, i: nat, keep: set<Addr>): nat
    decreases |rs| - i
  {
    if i >= |rs| then 0 else (if rs[i] in keep then 0 else 1) + Stale(rs, i + 1, keep)
  }

  lemma {:induction false} AddedOk(rs: seq<Addr>, more: seq<Addr>)
    requires NoDup(rs)
    ensures NoDup(Added(rs, more)) && Members(Added(rs, more)) == Members(rs) + Members(more)
    decreases |more|
  {
    if more != [] {
      var front, a := more[..|more| - 1], more[|more| - 1];
      AddedOk(rs, front);
      assert Members(more) == Members(front) + {a} by { assert more == front + [a]; }
      var before := Added(rs, front);
      assert Members(before + [a]) == Members(before) + {a};
      assert a in before ==> a in Members(before);
    }
  }

  /** Newcomers come after those already there, in the order given. */
  lemma {:induction false} AddedBehind(rs: seq<Addr>, more: seq<Addr>)
    ensures rs <= Added(rs, more)
    ensures NoDup(more) && (forall a :: a in more ==> a !in rs) ==> Added(rs, more) == rs + more
    decreases |more|
  {
    if more != [] {
      var front, a := more[..|more| - 1], more[|more| - 1];
      AddedBehind(rs, front);
      assert more == front + [a];
      assert rs + more == rs + front + [a];
    }
  }

  lemma RemovedOk(rs: seq<Addr>, i: nat)
    requires NoDup(rs) && i < |rs|
    ensures NoDup(RemovedAt(rs, i)) && Members(RemovedAt(rs, i)) == Members(rs) - {rs[i]}
  {
    var r := RemovedAt(rs, i);
    forall a ensures a in r <==> a in rs && a != rs[i] {
      if a in rs && a != rs[i] {
        var j :| 0 <= j < |rs| && rs[j] == a;
        assert if j == |rs| - 1 then r[i] == a else r[j] == a;
      }
    }
  }

  /** Whoever is to stay stays, nobody new appears, nobody appears twice. */
  lemma {:induction false} SweepOk(rs: seq<Addr>, i: nat, keep: set<Addr>)
    requires NoDup(rs)
    ensures var r := Sweep(rs, i, keep);
      NoDup(r) && Members(r) <= Members(rs) && Members(rs) * keep <= Members(r)
    decreases |rs| - i
  {
    if i < |rs| {
      if rs[i] in keep {
        SweepOk(rs, i + 1, keep);
      } else {
        RemovedOk(rs, i);
        SweepOk(RemovedAt(rs, i), i + 1, keep);
      }
    }
  }

  /** Positions already passed are never touched again. */
  lemma {:induction false} SweepPrefix(rs: seq<Addr>, i: nat, keep: set<Addr>)
    requires i <= |rs|
    ensures i <= |Sweep(rs, i, keep)| && Sweep(rs, i, keep)[..i] == rs[..i]
    decreases |rs| - i
  {
    if i < |rs| {
      if rs[i] in keep {
        SweepPrefix(rs, i + 1, keep);
        assert Sweep(rs, i, keep)[..i] == Sweep(rs, i, keep)[..i + 1][..i] == rs[..i + 1][..i];
      } else {
        var r := RemovedAt(rs, i);
        if i + 1 <= |r| {
          SweepPrefix(r, i + 1, keep);
          assert Sweep(r, i + 1, keep)[..i] == Sweep(r, i + 1, keep)[..i + 1][..i] == r[..i + 1][..i];
        }
        assert r[..i] == rs[..i];
      }
    }
  }

  lemma {:induction false} StaleBound(rs: seq<Addr>, i: nat, keep: set<Addr>)
    requires i <= |rs|
    ensures Stale(rs, i, keep) <= |rs| - i
    ensures Stale(rs, i, keep) == 0 ==> forall j :: i <= j < |rs| ==> rs[j] in keep
    decreases |rs| - i
  {
    if i < |rs| { StaleBound(rs, i + 1, keep); }
  }

  lemma {:induction false} StaleSame(a: seq<Addr>, b: seq<Addr>, i: nat, keep: set<Addr>)
    requires |a| == |b| && i <= |a| && forall j :: i <= j < |a| ==> a[j] == b[j]
    ensures Stale(a, i, keep) == Stale(b, i, keep)
    decreases |a| - i
  {
    if i < |a| { StaleSame(a, b, i + 1, keep); }
  }

  lemma {:induction false} StaleLast(rs: seq<Addr>, i: nat, keep: set<Addr>)
    requires i < |rs|
    ensures Stale(rs, i, keep) == Stale(rs[..|rs| - 1], i, keep) + (if rs[|rs| - 1] in keep then 0 else 1)
    decreases |rs| - i
  {
    if i < |rs| - 1 { StaleLast(rs, i + 1, keep); }
  }

  /** The last entries, one fewer than there are relayers to go, are all to stay. */
  predicate TailKept(rs: seq<Addr>, i: nat, keep: set<Addr>) {
    forall j :: i <= j < |rs| && j >= |rs| - Stale(rs, i, keep) + 1 ==> rs[j] in keep
  }

  lemma {:induction false} SweepCleanIff(rs: seq<Addr>, i: nat, keep: set<Addr>)
    requires i <= |rs| && Kept(rs[..i], keep)
    ensures Kept(Sweep(rs, i, keep), keep) <==> TailKept(rs, i, keep)
    decreases |rs| - i
  {
    if i == |rs| {
      assert rs[..i] == rs;
    } else if rs[i] in keep {
      StaleBound(rs, i + 1, keep);
      SweepCleanIff(rs, i + 1, keep);
    } else {
      RemovalCase(rs, i, keep);
    }
  }

  lemma {:induction false} RemovalCase(rs: seq<Addr>, i: nat, keep: set<Addr>)
    requires i < |rs| && Kept(rs[..i], keep) && rs[i] !in keep
    ensures Kept(Sweep(rs, i, keep), keep) <==> TailKept(rs, i, keep)
    decreases |rs| - i, 0
  {
    var n := |rs|;
    var r := RemovedAt(rs, i);
    if i == n - 1 {
      assert Stale(rs, n, keep) == 0;
      assert Sweep(rs, i, keep) == r == rs[..i];
    } else {
      var m := Stale(rs, i, keep);
      StaleLast(rs, i + 1, keep);
      StaleSame(rs[..n - 1], r, i + 1, keep);
      assert m == 1 + Stale(r, i + 1, keep) + (if rs[n - 1] in keep then 0 else 1);
      if rs[n - 1] in keep {
        forall j | 0 <= j < i + 1 ensures r[j] in keep {
          if j < i { assert r[j] == rs[..i][j]; }
        }
        assert Kept(r[..i + 1], keep);
        SweepCleanIff(r, i + 1, keep);
        StaleBound(r, i + 1, keep);
        assert TailKept(rs, i, keep) <==> TailKept(r, i + 1, keep);
      } else {
        SweepPrefix(r, i + 1, keep);
        assert Sweep(r, i + 1, keep)[..i + 1][i] == rs[n - 1];
        assert n - 1 >= n - m + 1;
      }
    }
  }

  /** The replacement of the relayers: exact, no one left over, exactly when the last entries of the
      extended array, one fewer than there are relayers to go, are all among the new ones. */
  lemma ReplacementExact(rs: seq<Addr>, more: seq<Addr>)
    requires NoDup(rs)
    ensures var after := Sweep(Added(rs, more), 0, Members(more));
      && NoDup(after) && Members(more) <= Members(after) <= Members(rs) + Members(more)
      && (Members(after) == Members(more) <==> TailKept(Added(rs, more), 0, Members(more)))
  {
    var keep := Members(more);
    var extended := Added(rs, more);
    var after := Sweep(extended, 0, keep);
    AddedOk(rs, more);
    SweepOk(extended, 0, keep);
    SweepCleanIff(extended, 0, keep);
    assert Members(after) <= keep <==> Kept(after, keep) by {
      forall j | 0 <= j < |after| ensures after[j] in Members(after) { }
    }
  }

  /** Two relayers to go and nobody new: the second one stays. */
  lemma LeftOver(a: Addr, b: Addr, c: Addr)
    requires a != b && b != c && a != c
    ensures Sweep(Added([a, b, c], [a]), 0, Members([a])) == [a, c]
  {
    var rs := [a, b, c];
    assert [a][..0] == [] && Added(rs, []) == rs && Added(rs, [a]) == rs;
    assert RemovedAt(rs, 1) == [a, c];
    assert Sweep([a, c], 2, {a}) == [a, c];
    assert Members([a]) == {a};
    assert Sweep(rs, 1, {a}) == Sweep([a, c], 2, {a});
  }

  // ------------------------------------------------------------------- signatures

  /** Relayers, in array order, that have signed. */
  function Signed(rs: seq<Addr>, sigs: map<Addr, bytes>): seq<Addr>
    decreases |rs|
  {
    if rs == [] then [] else
    Signed(rs[..|rs| - 1], sigs) + (if rs[|rs| - 1] in sigs then [rs[|rs| - 1]] else [])
  }

  /** Their signatures, in the same order. */
  function Collected(rs: seq<Addr>, sigs: map<Addr, bytes>): (r: seq<bytes>)
    ensures |r| == |Signed(rs, sigs)|
    decreases |rs|
  {
    if rs == [] then [] else
    Collected(rs[..|rs| - 1], sigs) + (if rs[|rs| - 1] in sigs then [sigs[rs[|rs| - 1]]] else [])
  }

  lemma {:induction false} SignedOk(rs: seq<Addr>, sigs: map<Addr, bytes>)
    requires NoDup(rs)
    ensures NoDup(Signed(rs, sigs)) && forall a :: a in Signed(rs, sigs) <==> a in rs && a in sigs
    ensures forall i :: 0 <= i < |Signed(rs, sigs)| ==>
      Signed(rs, sigs)[i] in sigs && Collected(rs, sigs)[i] == sigs[Signed(rs, sigs)[i]]
    decreases |rs|
  {
    if rs != [] {
      var front := rs[..|rs| - 1];
      SignedOk(front, sigs);
      assert rs == front + [rs[|rs| - 1]];
    }
  }

  lemma SignedCount(rs: seq<Addr>, sigs: map<Addr, bytes>)
    requires NoDup(rs)
    ensures |Signed(rs, sigs)| == |Members(rs) * sigs.Keys|
  {
    SignedOk(rs, sigs);
    Runs.DistinctCount(Signed(rs, sigs));
    assert (set a | a in Signed(rs, sigs)) == Members(rs) * sigs.Keys;
  }

  datatype Submission = Submission(caller: Addr, id: PacketId, signature: bytes)

  /** Who submitted this packet. */
  function Submitters(subs: seq<Submission>, id: PacketId): set<Addr> { set s | s in subs && s.id == id :: s.caller }

  lemma OneMoreSubmitter(subs: seq<Submission>, i: nat, id: PacketId)
    requires i < |subs|
    ensures Submitters(subs[..i + 1], id) ==
      Submitters(subs[..i], id) + if subs[i].id == id then {subs[i].caller} else {}
  {
    assert subs[..i + 1] == subs[..i] + [subs[i]];
  }

  /** A packet that had the signatures of `before` and was submitted by `who` is acknowledged when a
      registered relayer among them was new and enough registered relayers have signed. */
  predicate Enough(registered: set<Addr>, threshold: nat, before: set<Addr>, who: set<Addr>) {
    !(registered * who <= before) && |registered * (before + who)| >= threshold
  }

  lemma NothingYet(registered: set<Addr>, threshold: nat, before: set<Addr>)
    ensures !Enough(registered, threshold, before, {})
  {
  }

  lemma OneMoreSigns(registered: set<Addr>, threshold: nat, before: set<Addr>, who: set<Addr>, x: Addr)
    ensures Enough(registered, threshold, before, who) ==> Enough(registered, threshold, before, who + {x})
    ensures x !in registered || x in before + who ==>
      (Enough(registered, threshold, before, who + {x}) <==> Enough(registered, threshold, before, who))
    ensures x in registered && x !in before ==>
      (Enough(registered, threshold, before, who + {x}) <==>
         |registered * (before + registered * who + {x})| >= threshold)
  {
    Runs.SubsetCount(registered * (before + who), registered * (before + (who + {x})));
    assert registered * (before + registered * who + {x}) == registered * (before + (who + {x})) || x !in registered;
    if x !in registered || x in before + who {
      assert registered * (before + (who + {x})) == registered * (before + who);
    }
  }

  lemma TrackStep(registered: set<Addr>, threshold: nat, done: bool, had: set<Addr>, who: set<Addr>, x: Addr,
      wasAcked: bool, keys: set<Addr>, isAcked: bool, keys': set<Addr>)
    requires wasAcked <==> done || Enough(registered, threshold, had, who)
    requires if wasAcked then isAcked else keys == had + registered * who
    requires !wasAcked && (x !in registered || x in keys) ==> !isAcked && keys' == keys
    requires !wasAcked && x in registered && x !in keys ==>
      (isAcked <==> |registered * (keys + {x})| >= threshold) && (!isAcked ==> keys' == keys + {x})
    ensures isAcked <==> done || Enough(registered, threshold, had, who + {x})
    ensures !isAcked ==> keys' == had + registered * (who + {x})
  {
    hide Enough;
    OneMoreSigns(registered, threshold, had, who, x);
    assert registered * (who + {x}) == registered * who + if x in registered then {x} else {};
  }

  function Of(signatures: map<PacketId, map<Addr, bytes>>, id: PacketId): map<Addr, bytes> {
    if id in signatures then signatures[id] else map[]
  }

  /** What became of a packet that was `done` or had the signatures of `had`, and was submitted by `who`. */
  ghost predicate TrackedIn(acknowledged: map<PacketId, bool>, signatures: map<PacketId, map<Addr, bytes>>,
    registered: set<Addr>, threshold: nat, id: PacketId, done: bool, had: set<Addr>, who: set<Addr>)
  {
    && (id in acknowledged <==> done || Enough(registered, threshold, had, who))
    && (id !in acknowledged ==> Of(signatures, id).Keys == had + registered * who)
  }

  lemma NothingTracked(acknowledged: map<PacketId, bool>, signatures: map<PacketId, map<Addr, bytes>>,
      registered: set<Addr>, threshold: nat, id: PacketId)
    ensures TrackedIn(acknowledged, signatures, registered, threshold, id, id in acknowledged,
      Of(signatures, id).Keys, Submitters([], id))
  {
    assert Submitters([], id) == {};
  }

  lemma TrackedMeans(acknowledged: map<PacketId, bool>, signatures: map<PacketId, map<Addr, bytes>>,
      registered: set<Addr>, threshold: nat, id: PacketId, done: bool, had: set<Addr>, who: set<Addr>)
    requires TrackedIn(acknowledged, signatures, registered, threshold, id, done, had, who)
    ensures id in acknowledged <==> done || Enough(registered, threshold, had, who)
  {
  }

  /** What one submission does. */
  ghost predicate Submitted(ack: map<PacketId, bool>, sigs: map<PacketId, map<Addr, bytes>>,
    ack': map<PacketId, bool>, sigs': map<PacketId, map<Addr, bytes>>, registered: set<Addr>, threshold: nat,
    s: Submission)
  {
    && (forall id :: id != s.id ==> (id in ack' <==> id in ack) && Of(sigs', id) == Of(sigs, id))
    && (if s.id in ack then s.id in ack'
        else if s.caller !in registered || s.caller in Of(sigs, s.id)
        then s.id !in ack' && Of(sigs', s.id) == Of(sigs, s.id)
        else
          && (s.id in ack' <==> |registered * Of(sigs, s.id)[s.caller := s.signature].Keys| >= threshold)
          && (s.id !in ack' ==> Of(sigs', s.id) == Of(sigs, s.id)[s.caller := s.signature]))
  }

  lemma SubmittedIs(ack: map<PacketId, bool>, sigs: map<PacketId, map<Addr, bytes>>, ack': map<PacketId, bool>,
      sigs': map<PacketId, map<Addr, bytes>>, rs: seq<Addr>, threshold: nat, s: Submission, ok: bool, acked: bool)
    requires NoDup(rs) && (ok <==> s.caller in rs && (s.id in ack || s.caller !in Of(sigs, s.id)))
    requires !ok || s.id in ack ==> ack' == ack && sigs' == sigs
    requires forall other :: other != s.id ==> Of(sigs', other) == Of(sigs, other)
    requires ok && s.id !in ack ==>
      && (acked <==> |Signed(rs, Of(sigs, s.id)[s.caller := s.signature])| >= threshold)
      && (if acked then ack' == ack[s.id := true]
          else ack' == ack && Of(sigs', s.id) == Of(sigs, s.id)[s.caller := s.signature])
    ensures Submitted(ack, sigs, ack', sigs', Members(rs), threshold, s)
  {
    hide Signed, Of, Runs.NoDup;
    SignedCount(rs, Of(sigs, s.id)[s.caller := s.signature]);
  }

  lemma TrackNext(ack: map<PacketId, bool>, sigs: map<PacketId, map<Addr, bytes>>, ack': map<PacketId, bool>,
      sigs': map<PacketId, map<Addr, bytes>>, registered: set<Addr>, threshold: nat, s: Submission, id: PacketId,
      done: bool, had: set<Addr>, who: set<Addr>)
    requires TrackedIn(ack, sigs, registered, threshold, id, done, had, who)
    requires Submitted(ack, sigs, ack', sigs', registered, threshold, s)
    ensures TrackedIn(ack', sigs', registered, threshold, id, done, had, who + if s.id == id then {s.caller} else {})
  {
    hide Enough, Of;
    if id == s.id {
      assert Of(sigs, id)[s.caller := s.signature].Keys == Of(sigs, id).Keys + {s.caller};
      TrackStep(registered, threshold, done, had, who, s.caller, id in ack, Of(sigs, id).Keys, id in ack',
        Of(sigs', id).Keys);
    } else {
      assert who + {} == who;
    }
  }

  /** An acknowledgement, with what was in force when it was given. */
  datatype Ack = Ack(id: PacketId, signers: seq<Addr>, signatures: seq<bytes>, threshold: nat, registered: set<Addr>)

  ghost predicate AckOk(a: Ack) {
    && NoDup(a.signers) && Members(a.signers) <= a.registered
    && |a.signatures| == |a.signers| && |a.signers| >= a.threshold >= 1
  }

  class Aggregator {
    const admin: Addr
    var threshold: nat
    var relayers: seq<Addr>
    var lookup: map<Addr, bool>
    var acknowledged: map<PacketId, bool>
    var packets: set<PacketId>
    var signatures: map<PacketId, map<Addr, bytes>>
    ghost var acks: seq<Ack>

    ghost predicate Valid()
      reads this
    {
      && threshold >= 1
      && NoDup(relayers) && lookup.Keys == Members(relayers) && (forall a :: a in lookup ==> lookup[a])
      && (forall i :: 0 <= i < |acks| ==> AckOk(acks[i]))
      && (forall i, j :: 0 <= i < j < |acks| ==> acks[i].id != acks[j].id)
      && (forall id :: id in acknowledged ==> acknowledged[id])
      && (forall i :: 0 <= i < |acks| ==> acks[i].id in acknowledged)
    }

    constructor (admin_: Addr)
      ensures Valid() && admin == admin_ && relayers == [] && acks == [] && threshold == 1
      ensures acknowledged == map[] && packets == {} && signatures == map[]
    {
      admin := admin_;
      threshold := 1;
      relayers, lookup := [], map[];
      acknowledged, packets, signatures, acks := map[], {}, map[], [];
    }

    // -------------------------------------------------------------- relayers

    method AddRelayer(a: Addr)
      requires Valid()
      modifies this`relayers, this`lookup
      ensures Valid() && relayers == Added(old(relayers), [a])
    {
      assert [a][..0] == [];
      if a !in lookup {
        relayers := relayers + [a];
        lookup := lookup[a := true];
      }
    }

    /** Takes the last relayer off the array and puts it in the place of the one removed. */
    method RemoveRelayer(a: Addr, ghost at: nat)
      requires Valid() && at < |relayers| && relayers[at] == a
      modifies this`relayers, this`lookup
      ensures Valid() && relayers == RemovedAt(old(relayers), at)
    {
      RemovedOk(relayers, at);
      if lookup[a] {
        lookup := lookup - {a};
        var top := relayers[|relayers| - 1];
        relayers := relayers[..|relayers| - 1];
        var i := 0;
        while i < |relayers|
          invariant 0 <= i <= |relayers| && relayers == old(relayers)[..|old(relayers)| - 1]
          invariant i <= at
          decreases |relayers| - i
        {
          if relayers[i] == a {
            relayers := relayers[i := top];
            break;
          }
          i := i + 1;
        }
      }
    }

    method SetSignatureThreshold(caller: Addr, newThreshold: int) returns (ok: bool)
      requires Valid()
      modifies this`threshold
      ensures Valid()
      ensures ok <==> caller == admin && 0 < newThreshold <= |relayers|
      ensures threshold == if ok then newThreshold else old(threshold)
    {
      ok := caller == admin && 0 < newThreshold <= |relayers|;
      if ok { threshold := newThreshold; }
    }

    /** Adds the new relayers, sweeps the others out, sets the threshold; all or nothing. */
    method SetRelayers(caller: Addr, newRelayers: seq<Addr>, newThreshold: int) returns (ok: bool)
      requires Valid()
      modifies this`relayers, this`lookup, this`threshold
      ensures Valid()
      ensures !ok ==> relayers == old(relayers) && lookup == old(lookup) && threshold == old(threshold)
      ensures var after := if newRelayers == [] then old(relayers)
        else Sweep(Added(old(relayers), newRelayers), 0, Members(newRelayers));
        && (ok <==> caller == admin && 0 < newThreshold <= |after|)
        && (ok ==> relayers == after && threshold == newThreshold)
      ensures ok && newRelayers != [] ==>
        && Members(newRelayers) <= Members(relayers) <= Members(old(relayers)) + Members(newRelayers)
        && (Members(relayers) == Members(newRelayers) <==> TailKept(Added(old(relayers), newRelayers), 0,
              Members(newRelayers)))
    {
      if caller != admin { return false; }
      var relayersBefore, lookupBefore := relayers, lookup;
      if |newRelayers| > 0 {
        ReplacementExact(relayers, newRelayers);
        var keep := AddRelayers(newRelayers);
        SweepRelayers(keep);
      }
      if newThreshold <= 0 || newThreshold > |relayers| {
        relayers, lookup := relayersBefore, lookupBefore;
        return false;
      }
      threshold := newThreshold;
      return true;
    }

    method AddRelayers(newRelayers: seq<Addr>) returns (keep: set<Addr>)
      requires Valid()
      modifies this`relayers, this`lookup
      ensures Valid() && relayers == Added(old(relayers), newRelayers) && keep == Members(newRelayers)
    {
      keep := {};
      for k := 0 to |newRelayers|
        invariant Valid() && relayers == Added(old(relayers), newRelayers[..k]) && keep == Members(newRelayers[..k])
      {
        assert newRelayers[..k + 1][..k] == newRelayers[..k];
        keep := keep + {newRelayers[k]};
        assert [newRelayers[k]][..0] == [];
        AddRelayer(newRelayers[k]);
      }
      assert newRelayers[..|newRelayers|] == newRelayers;
    }

    /** Removes whoever is not to be kept, and steps on past the relayer swapped in. */
    method SweepRelayers(keep: set<Addr>)
      requires Valid()
      modifies this`relayers, this`lookup
      ensures Valid() && relayers == Sweep(old(relayers), 0, keep)
    {
      var i := 0;
      while i < |relayers|
        invariant Valid() && Sweep(relayers, i, keep) == Sweep(old(relayers), 0, keep)
        decreases |relayers| - i
      {
        var oldRelayer := relayers[i];
        if oldRelayer !in keep {
          RemoveRelayer(oldRelayer, i);
        }
        i := i + 1;
      }
    }

    // --------------------------------------------------------------- packets

    function SignaturesOf(id: PacketId): map<Addr, bytes>
      reads this
    {
      Of(signatures, id)
    }

    method ThresholdReached(id: PacketId) returns (reached: bool)
      ensures reached == (|Signed(relayers, SignaturesOf(id))| >= threshold)
    {
      var count := 0;
      for i := 0 to |relayers|
        invariant count == |Signed(relayers[..i], SignaturesOf(id))|
      {
        assert relayers[..i + 1][..i] == relayers[..i];
        if relayers[i] in SignaturesOf(id) { count := count + 1; }
      }
      assert relayers[..|relayers|] == relayers;
      return count >= threshold;
    }

    method GetSignatures(id: PacketId) returns (sigs: seq<bytes>)
      ensures sigs == Collected(relayers, SignaturesOf(id))
    {
      sigs := [];
      for i := 0 to |relayers|
        invariant sigs == Collected(relayers[..i], SignaturesOf(id))
      {
        assert relayers[..i + 1][..i] == relayers[..i];
        if relayers[i] in SignaturesOf(id) { sigs := sigs + [SignaturesOf(id)[relayers[i]]]; }
      }
      assert relayers[..|relayers|] == relayers;
    }

    /** What is acknowledged when these signatures are in. */
    ghost function AckFor(id: PacketId, sigs: map<Addr, bytes>): Ack
      reads this
    {
      Ack(id, Signed(relayers, sigs), Collected(relayers, sigs), threshold, Members(relayers))
    }

    /** A relayer signs a packet; the signature that reaches the threshold acknowledges it, and
        nothing is acknowledged twice. */
    method SubmitPacket(caller: Addr, id: PacketId, signature: bytes) returns (ok: bool, acked: bool)
      requires Valid()
      modifies this`packets, this`signatures, this`acknowledged, this`acks
      ensures Valid()
      ensures ok <==> caller in relayers && (id in old(acknowledged) || caller !in old(SignaturesOf(id)))
      ensures !ok || id in old(acknowledged) ==>
        acks == old(acks) && acknowledged == old(acknowledged) && signatures == old(signatures)
          && packets == old(packets) && !acked
      ensures ok && id !in old(acknowledged) ==>
        var sigs := old(SignaturesOf(id))[caller := signature];
        && (acked <==> |Signed(relayers, sigs)| >= threshold)
        && (acked ==>
              acknowledged == old(acknowledged)[id := true] && id !in packets && acks == old(acks) + [AckFor(id, sigs)])
        && (!acked ==>
              acknowledged == old(acknowledged) && acks == old(acks) && id in packets && SignaturesOf(id) == sigs)
        && (acked ==> SignaturesOf(id) == sigs - Members(relayers))  // those of former relayers remain
      ensures forall other :: other != id ==>
        SignaturesOf(other) == old(SignaturesOf(other)) && (other in packets <==> other in old(packets))
    {
      hide Signed, Collected, Runs.NoDup;
      if caller !in lookup { return false, false; }
      assert caller in Members(relayers);
      if id in acknowledged { return true, false; }
      if caller in SignaturesOf(id) { return false, false; }
      packets := packets + {id};
      ghost var sigs := SignaturesOf(id)[caller := signature];
      signatures := signatures[id := SignaturesOf(id)[caller := signature]];
      var reached := ThresholdReached(id);
      if !reached { return true, false; }
      Acknowledge(id);
      return true, true;
    }

    method SubmitNext(s: Submission)
      requires Valid()
      modifies this`packets, this`signatures, this`acknowledged, this`acks
      ensures Valid()
      ensures Submitted(old(acknowledged), old(signatures), acknowledged, signatures, Members(relayers), threshold, s)
    {
      hide Signed, Runs.NoDup, Of, Submitted, Members, AckOk;
      ghost var ack, sigs := acknowledged, signatures;
      var ok, acked := SubmitPacket(s.caller, s.id, s.signature);
      forall other | other != s.id ensures Of(signatures, other) == Of(sigs, other) {
        assert SignaturesOf(other) == old(SignaturesOf(other));
      }
      SubmittedIs(ack, sigs, acknowledged, signatures, relayers, threshold, s, ok, acked);
    }

    /** Any sequence of submissions, by anybody, of any packets: a packet ends up acknowledged exactly when
        it was before, or a registered relayer newly signed it and at least as many registered relayers as
        the threshold asks for have signed it by now. */
    method SubmitAll(subs: seq<Submission>)
      requires Valid()
      modifies this`packets, this`signatures, this`acknowledged, this`acks
      ensures Valid()
      ensures forall id :: id in acknowledged <==>
        || id in old(acknowledged)
        || Enough(Members(relayers), threshold, old(SignaturesOf(id)).Keys, Submitters(subs, id))
    {
      hide Signed, Runs.NoDup, Enough, Submitters, TrackedIn, Submitted, Of;
      ghost var ack0, sigs0, registered := acknowledged, signatures, Members(relayers);
      forall id ensures TrackedIn(acknowledged, signatures, registered, threshold, id, id in ack0, Of(sigs0, id).Keys,
        Submitters(subs[..0], id))
      {
        NothingTracked(acknowledged, signatures, registered, threshold, id);
      }
      for i := 0 to |subs|
        invariant Valid()
        invariant forall id ::
          TrackedIn(acknowledged, signatures, registered, threshold, id, id in ack0, Of(sigs0, id).Keys,
            Submitters(subs[..i], id))
      {
        ghost var ack1, sigs1 := acknowledged, signatures;
        SubmitNext(subs[i]);
        forall id ensures TrackedIn(acknowledged, signatures, registered, threshold, id, id in ack0,
          Of(sigs0, id).Keys, Submitters(subs[..i + 1], id))
        {
          OneMoreSubmitter(subs, i, id);
          TrackNext(ack1, sigs1, acknowledged, signatures, registered, threshold, subs[i], id, id in ack0,
            Of(sigs0, id).Keys, Submitters(subs[..i], id));
        }
      }
      assert subs[..|subs|] == subs;
      forall id ensures id in acknowledged <==>
        id in ack0 || Enough(registered, threshold, Of(sigs0, id).Keys, Submitters(subs, id))
      {
        TrackedMeans(acknowledged, signatures, registered, threshold, id, id in ack0, Of(sigs0, id).Keys,
          Submitters(subs, id));
      }
    }

    method Acknowledge(id: PacketId)
      requires Valid() && id !in acknowledged && |Signed(relayers, SignaturesOf(id))| >= threshold
      modifies this`packets, this`signatures, this`acknowledged, this`acks
      ensures Valid() && acknowledged == old(acknowledged)[id := true] && id !in packets
      ensures acks == old(acks) + [AckFor(id, old(SignaturesOf(id)))]
      ensures packets == old(packets) - {id} && SignaturesOf(id) == old(SignaturesOf(id)) - Members(relayers)
      ensures forall other :: other != id ==> SignaturesOf(other) == old(SignaturesOf(other))
    {
      hide Signed, Collected, Runs.NoDup;
      var collected := GetSignatures(id);
      SignedOk(relayers, SignaturesOf(id));
      acks := acks + [Ack(id, Signed(relayers, SignaturesOf(id)), collected, threshold, Members(relayers))];
      acknowledged := acknowledged[id := true];
      RemovePacket(id);
    }

    /** Forgets the packet and the registered relayers' signatures on it. */
    method RemovePacket(id: PacketId)
      modifies this`packets, this`signatures
      ensures packets == old(packets) - {id}
      ensures SignaturesOf(id) == old(SignaturesOf(id)) - Members(relayers)
      ensures forall other :: other != id ==> SignaturesOf(other) == old(SignaturesOf(other))
    {
      packets := packets - {id};
      var dict := SignaturesOf(id);
      for i := 0 to |relayers|
        invariant dict == SignaturesOf(id) - Members(relayers[..i])
      {
        dict := dict - {relayers[i]};
        assert Members(relayers[..i + 1]) == Members(relayers[..i]) + {relayers[i]};
      }
      assert relayers[..|relayers|] == relayers;
      signatures := signatures[id := dict];
    }
  }
}
