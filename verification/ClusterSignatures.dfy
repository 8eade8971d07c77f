/**
 Counting the validators that signed a message. One implementation stops as soon as enough
 were found, the other reads every signature. Recovering a key from a signature is a parameter.
 */
module ClusterSignatures {
  import opened Bytes
  import opened Wrappers
  import Runs = XCallRuns

  type PubKey = bytes

  /** Key recovery for one message: nothing when it fails. */
  type Recover = bytes -> Option<PubKey>

  datatype Verdict = Accepted | InvalidSignature | InsufficientSignatures

  /** Signature and recovery code as handed to key recovery: codes from 27 on are shifted down. */
  function Normalized(signature: bytes): bytes
    requires |signature| == 65
  {
    signature[..64] + [if signature[64] >= 27 then signature[64] - 27 else signature[64]]
  }

  function Signer(recover: Recover, signature: bytes): Option<PubKey> {
    if |signature| == 65 then recover(Normalized(signature)) else None
  }

  /** Whose signature it is: recovery codes below 27 are taken as they are, and a code of 27 and more means
      the code 27 below it, for all 229 of them; anything but 65 bytes is nobody's. */
  lemma SignerByCode(recover: Recover, signature: bytes, v: nat)
    requires |signature| == 64 && v < 256
    ensures v < 27 ==> Signer(recover, signature + [v]) == recover(signature + [v])
    ensures v <= 228 ==> Signer(recover, signature + [v + 27]) == recover(signature + [v])
    ensures forall other: bytes :: |other| != 65 ==> Signer(recover, other).None?
  {
    assert (signature + [v])[..64] == signature;
    if v <= 228 { assert (signature + [v + 27])[..64] == signature; }
  }

  /** The distinct validators that signed. */
  function Signers(recover: Recover, validators: set<PubKey>, signatures: seq<bytes>): set<PubKey> {
    set k | k in validators && exists i :: 0 <= i < |signatures| && Signer(recover, signatures[i]) == Some(k)
  }

  predicate WellSized(signatures: seq<bytes>) { forall i :: 0 <= i < |signatures| ==> |signatures[i]| == 65 }

  lemma SignersGrow(recover: Recover, validators: set<PubKey>, signatures: seq<bytes>, i: nat)
    requires i < |signatures|
    ensures var s, s' := Signers(recover, validators, signatures[..i]),
      Signers(recover, validators, signatures[..i + 1]);
      var k := Signer(recover, signatures[i]);
      s' == if k.Some? && k.value in validators then s + {k.value} else s
  {
    var s, s' := Signers(recover, validators, signatures[..i]), Signers(recover, validators, signatures[..i + 1]);
    assert signatures[..i + 1] == signatures[..i] + [signatures[i]];
    forall k ensures k in s' <==> k in s || (k in validators && Signer(recover, signatures[i]) == Some(k)) {
      if k in s {
        var j :| 0 <= j < i && Signer(recover, signatures[..i][j]) == Some(k);
        assert signatures[..i + 1][j] == signatures[..i][j];
      }
      if k in validators && Signer(recover, signatures[i]) == Some(k) {
        assert signatures[..i + 1][i] == signatures[i];
      }
      if k in s' {
        var j :| 0 <= j < i + 1 && Signer(recover, signatures[..i + 1][j]) == Some(k);
        if j < i { assert signatures[..i][j] == signatures[..i + 1][j]; }
      }
    }
  }

  lemma PrefixSigners(recover: Recover, validators: set<PubKey>, signatures: seq<bytes>, i: nat)
    requires i <= |signatures|
    ensures |Signers(recover, validators, signatures[..i])| <= |Signers(recover, validators, signatures)|
  {
    var s, t := Signers(recover, validators, signatures[..i]), Signers(recover, validators, signatures);
    assert s <= t;
    Runs.SubsetCount(s, t);
  }

  lemma NoSigners(recover: Recover, validators: set<PubKey>)
    ensures Signers(recover, validators, []) == {}
  {
  }

  /** One signer per signature at most. */
  lemma {:induction false} FewSigners(recover: Recover, validators: set<PubKey>, signatures: seq<bytes>, i: nat)
    requires i <= |signatures|
    ensures |Signers(recover, validators, signatures[..i])| <= i
    decreases i
  {
    hide Signers;
    if i == 0 {
      NoSigners(recover, validators);
      assert signatures[..0] == [];
    } else {
      FewSigners(recover, validators, signatures, i - 1);
      SignersGrow(recover, validators, signatures, i - 1);
    }
  }

  /** Enough validators have signed among the first `i` signatures, all of 65 bytes. */
  ghost predicate EnoughAt(recover: Recover, validators: set<PubKey>, threshold: nat, signatures: seq<bytes>, i: nat) {
    && i <= |signatures| && WellSized(signatures[..i])
    && |Signers(recover, validators, signatures[..i])| >= if threshold == 0 then 1 else threshold
  }

  /** Signature `i` is the first that has not 65 bytes. */
  predicate FirstMisfit(signatures: seq<bytes>, i: nat) {
    i < |signatures| && WellSized(signatures[..i]) && |signatures[i]| != 65
  }

  lemma NoneEnough(recover: Recover, validators: set<PubKey>, threshold: nat, signatures: seq<bytes>, i: nat)
    requires i <= |signatures| && (i < |signatures| ==> |signatures[i]| != 65)
    requires |Signers(recover, validators, signatures[..i])| < if threshold == 0 then 1 else threshold
    ensures forall j :: !EnoughAt(recover, validators, threshold, signatures, j)
  {
    hide Signers;
    forall j: nat | j <= |signatures| ensures !EnoughAt(recover, validators, threshold, signatures, j) {
      if j <= i {
        PrefixSigners(recover, validators, signatures[..i], j);
        assert signatures[..i][..j] == signatures[..j];
      } else {
        assert signatures[..j][i] == signatures[i];
      }
    }
  }

  lemma TooFew(recover: Recover, validators: set<PubKey>, threshold: nat, signatures: seq<bytes>)
    requires |signatures| < threshold
    ensures forall j :: !EnoughAt(recover, validators, threshold, signatures, j)
  {
    hide Signers;
    forall j: nat | j <= |signatures| ensures !EnoughAt(recover, validators, threshold, signatures, j) {
      FewSigners(recover, validators, signatures, j);
    }
  }

  /** Stops at the threshold. With signatures of 65 bytes and a threshold of at least one, accepts
      exactly when enough different validators signed, in whatever order and however often. A zero
      threshold still asks for one. */
  method VerifyEarlyExit(recover: Recover, validators: set<PubKey>, threshold: nat, signatures: seq<bytes>)
      returns (r: Verdict)
    ensures WellSized(signatures) ==>
      r == if |Signers(recover, validators, signatures)| >= (if threshold == 0 then 1 else threshold) then Accepted
        else InsufficientSignatures
    ensures r == Accepted ==> |Signers(recover, validators, signatures)| >= threshold
    // and on all signatures: what comes first decides, enough validators or a signature of another size
    ensures r == Accepted <==> exists i :: EnoughAt(recover, validators, threshold, signatures, i)
    ensures r == InvalidSignature <==>
      |signatures| >= threshold && r != Accepted && exists i :: FirstMisfit(signatures, i)
  {
    hide Signers, Normalized;
    FewSigners(recover, validators, signatures, |signatures|);
    FewSigners(recover, validators, signatures, 0);
    assert signatures[..|signatures|] == signatures;
    if |signatures| < threshold {
      TooFew(recover, validators, threshold, signatures);
      return InsufficientSignatures;
    }
    var signers: set<PubKey> := {};
    for i := 0 to |signatures|
      invariant signers == Signers(recover, validators, signatures[..i])
      invariant |signers| < (if threshold == 0 then 1 else threshold)
      invariant WellSized(signatures[..i])
    {
      var signature := signatures[i];
      if |signature| != 65 {
        NoneEnough(recover, validators, threshold, signatures, i);
        assert FirstMisfit(signatures, i);
        return InvalidSignature;
      }
      assert signatures[..i + 1] == signatures[..i] + [signature];
      SignersGrow(recover, validators, signatures, i);
      PrefixSigners(recover, validators, signatures, i + 1);
      var key := recover(Normalized(signature));
      if key.Some? && key.value in validators && key.value !in signers {
        signers := signers + {key.value};
        if |signers| >= threshold {
          assert EnoughAt(recover, validators, threshold, signatures, i + 1);
          return Accepted;
        }
      }
    }
    NoneEnough(recover, validators, threshold, signatures, |signatures|);
    return InsufficientSignatures;
  }

  predicate Recovers(recover: Recover, signature: bytes)
    requires |signature| == 65
  {
    recover(Normalized(signature)).Some?
  }

  lemma ScanStep(recover: Recover, validators: set<PubKey>, signatures: seq<bytes>, i: nat)
    requires i < |signatures| && |signatures[i]| == 65 && Recovers(recover, signatures[i])
    ensures var s, s' := Signers(recover, validators, signatures[..i]),
      Signers(recover, validators, signatures[..i + 1]);
      var k := recover(Normalized(signatures[i])).value;
      s' == (if k in validators then s + {k} else s)
  {
    hide Signers, Normalized;
    SignersGrow(recover, validators, signatures, i);
  }

  /** Reads every signature; a failed recovery aborts. The types admit signatures of 65 bytes only. */
  method VerifyFullScan(recover: Recover, validators: set<PubKey>, threshold: nat, signatures: seq<bytes>)
    returns (aborted: bool, ok: bool)
    requires WellSized(signatures)
    ensures aborted <==>
      |signatures| >= threshold && exists i :: 0 <= i < |signatures| && !Recovers(recover, signatures[i])
    ensures !aborted ==> ok == (|Signers(recover, validators, signatures)| >= threshold)
  {
    hide Signers, Normalized, Signer;
    FewSigners(recover, validators, signatures, |signatures|);
    FewSigners(recover, validators, signatures, 0);
    assert signatures[..|signatures|] == signatures;
    if |signatures| < threshold { return false, false; }
    var unique: map<PubKey, nat> := map[];
    var count := 0;
    for i := 0 to |signatures|
      invariant unique.Keys == Signers(recover, validators, signatures[..i]) && count == |unique.Keys|
      invariant forall j :: 0 <= j < i ==> Recovers(recover, signatures[j])
    {
      var key := recover(Normalized(signatures[i]));
      if key.None? {
        assert !Recovers(recover, signatures[i]);
        return true, false;
      }
      ScanStep(recover, validators, signatures, i);
      if key.value in validators && key.value !in unique {
        unique := unique[key.value := count];
        count := count + 1;
      }
    }
    return false, |unique| >= threshold;
  }

  /** Only the set of signatures matters: reordering or repeating them changes nothing. */
  lemma OrderAndRepetition(recover: Recover, validators: set<PubKey>, a: seq<bytes>, b: seq<bytes>)
    requires forall s :: s in a <==> s in b
    ensures Signers(recover, validators, a) == Signers(recover, validators, b)
  {
    forall k ensures k in Signers(recover, validators, a) <==> k in Signers(recover, validators, b) {
      if k in Signers(recover, validators, a) {
        var i :| 0 <= i < |a| && Signer(recover, a[i]) == Some(k);
        assert a[i] in b;
      }
      if k in Signers(recover, validators, b) {
        var i :| 0 <= i < |b| && Signer(recover, b[i]) == Some(k);
        assert b[i] in a;
      }
    }
  }

  /** The two implementations agree whenever every recovery succeeds and the threshold is not zero. */
  method BothAgree(recover: Recover, validators: set<PubKey>, threshold: nat, signatures: seq<bytes>)
      returns (early: Verdict, ok: bool)
    requires WellSized(signatures) && threshold >= 1
    requires forall i :: 0 <= i < |signatures| ==> Recovers(recover, signatures[i])
    ensures (early == Accepted) == ok
  {
    early := VerifyEarlyExit(recover, validators, threshold, signatures);
    var aborted;
    aborted, ok := VerifyFullScan(recover, validators, threshold, signatures);
  }
}
