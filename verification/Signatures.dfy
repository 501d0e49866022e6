/**
 * The threshold-signature contract: what a booth's quorum is, when shares recover a combined
 * signature and when one verifies (tsigs.go, mmu.go:109-111).
 */
module Signatures {
  import opened Types

  /** mmu.go:109-111. The proposer's own vote is implied, so this is one less than the quorum. */
  function GetThreshold(boothSize: nat): nat
  {
    (boothSize / 3) * 2
  }

  predicate ValidShare(s: Share, boothId: nat, hash: Digest)
  {
    s.boothId == boothId && s.digest == hash
  }

  ghost predicate ValidShares(shares: seq<Share>, boothId: nat, hash: Digest)
  {
    && (forall i :: 0 <= i < |shares| ==> ValidShare(shares[i], boothId, hash))
    && (forall i, j :: 0 <= i < j < |shares| ==> shares[i].signer != shares[j].signer)
  }

  function Signers(shares: seq<Share>): set<ServerId>
  {
    set i | 0 <= i < |shares| :: shares[i].signer
  }

  /** tsigs.go:198-207: recovery succeeds exactly on `threshold` valid shares of distinct signers. */
  ghost function PenRecovery(shares: seq<Share>, hash: Digest, boothId: nat, boothSize: nat): Option<Cert>
  {
    if |shares| == GetThreshold(boothSize) && ValidShares(shares, boothId, hash)
    then Some(Cert(boothId, hash, Signers(shares)))
    else None
  }

  /** tsigs.go:209-211: a missing signature never verifies. */
  predicate PenVerify(hash: Digest, sig: Option<Cert>, boothId: nat)
  {
    sig.Some? && sig.value.boothId == boothId && sig.value.digest == hash
  }

  /** A recovered signature names exactly `threshold` signers, each with a valid share. */
  lemma {:induction false} RecoveredQuorum(shares: seq<Share>, hash: Digest, boothId: nat, boothSize: nat)
    requires PenRecovery(shares, hash, boothId, boothSize).Some?
    ensures |PenRecovery(shares, hash, boothId, boothSize).value.signers| == GetThreshold(boothSize)
    ensures forall v :: v in Signers(shares) ==> Share(v, boothId, hash) in shares
  {
    SignersCount(shares);
    forall v | v in Signers(shares) ensures Share(v, boothId, hash) in shares {
      var i :| 0 <= i < |shares| && shares[i].signer == v;
      assert shares[i] == Share(v, boothId, hash);
    }
  }

  /** Recovery and verification agree: what is recovered verifies for that hash and booth, and for no others. */
  lemma RecoveredVerifies(shares: seq<Share>, hash: Digest, boothId: nat, boothSize: nat)
    ensures forall h, b ::
              PenVerify(h, PenRecovery(shares, hash, boothId, boothSize), b) <==>
              h == hash && b == boothId && |shares| == GetThreshold(boothSize) && ValidShares(shares, boothId, hash)
  {
  }

  lemma {:induction false} SignersCount(shares: seq<Share>)
    requires forall i, j :: 0 <= i < j < |shares| ==> shares[i].signer != shares[j].signer
    ensures |Signers(shares)| == |shares|
  {
    if shares != [] {
      var n := |shares| - 1;
      SignersCount(shares[..n]);
      assert Signers(shares) == Signers(shares[..n]) + {shares[n].signer};
    }
  }
}
