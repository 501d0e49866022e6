/**
 * Agreement of the ordering phase when the members of one booth are sent different entries
 * under one block ID. A member guards itself by signing a (chain, block ID) once only
 * (comply.go:28-46); the members in `departed` do not keep that guard.
 */
module OrderingAgreement {
  import opened Quorums
  import opened Types
  import opened Signatures

  /** A block entry for ordering that reaches member `to`. */
  datatype Delivery = Delivery(to: ServerId, chain: nat, id: BlockId, booth: nat, hash: Digest)

  /** A share, with the block ID it was given for. The signature itself covers the hash alone. */
  datatype Vote = Vote(signer: ServerId, chain: nat, id: BlockId, booth: nat, hash: Digest)

  /** `used` holds which member has an ordering snapshot for which block. */
  datatype Ballot = Ballot(used: set<(ServerId, nat, BlockId)>, cast: set<Vote>)

  function Handle(b: Ballot, d: Delivery, departed: set<ServerId>): Ballot
  {
    var slot := (d.to, d.chain, d.id);
    if slot in b.used && d.to !in departed then b
    else Ballot(b.used + {slot}, b.cast + {Vote(d.to, d.chain, d.id, d.booth, d.hash)})
  }

  function Run(ds: seq<Delivery>, departed: set<ServerId>): Ballot
  {
    if ds == [] then Ballot({}, {}) else Handle(Run(ds[..|ds| - 1], departed), ds[|ds| - 1], departed)
  }

  /**
   * Entries for the booth reach servers in `reached` only. A server that receives one does not check that it is a
   * member.
   */
  ghost predicate SentWithin(ds: seq<Delivery>, booth: nat, reached: set<ServerId>)
  {
    forall i :: 0 <= i < |ds| && ds[i].booth == booth ==> ds[i].to in reached
  }

  ghost predicate AllVoted(q: set<ServerId>, b: Ballot, chain: nat, id: BlockId, booth: nat, hash: Digest)
  {
    forall v :: v in q ==> Vote(v, chain, id, booth, hash) in b.cast
  }

  /** `threshold` servers gave a share on `hash` for this chain, block ID and booth. */
  ghost predicate Certifiable(b: Ballot, chain: nat, id: BlockId, booth: nat, hash: Digest, threshold: nat)
  {
    exists q: set<ServerId> :: |q| == threshold && AllVoted(q, b, chain, id, booth, hash)
  }

  /** The delivery schedule `ds` lets two different hashes be certified for one block ID. */
  ghost predicate Conflict(ds: seq<Delivery>, departed: set<ServerId>, reached: set<ServerId>,
                           chain: nat, id: BlockId, booth: nat, h1: Digest, h2: Digest, threshold: nat)
  {
    && SentWithin(ds, booth, reached)
    && Certifiable(Run(ds, departed), chain, id, booth, h1, threshold)
    && Certifiable(Run(ds, departed), chain, id, booth, h2, threshold)
  }

  /**
   * Let the entries for a booth reach the servers in `reached`, members or not. Some schedule certifies two
   * different hashes under one block ID if and only if at least 2 * threshold - |reached| of them depart
   * from the sign-once guard.
   */
  lemma AgreementExactly(threshold: nat, reached: set<ServerId>, departed: set<ServerId>,
                         chain: nat, id: BlockId, booth: nat, h1: Digest, h2: Digest)
    requires h1 != h2
    ensures (exists ds :: Conflict(ds, departed, reached, chain, id, booth, h1, h2, threshold))
       <==> |departed * reached| >= 2 * threshold - |reached|
  {
    if |departed * reached| >= 2 * threshold - |reached| {
      SubsetSize(departed * reached, reached);
      var ds := ConflictSchedule(departed, reached, chain, id, booth, h1, h2, threshold);
    }
    forall ds | Conflict(ds, departed, reached, chain, id, booth, h1, h2, threshold)
      ensures |departed * reached| >= 2 * threshold - |reached|
    {
      ConflictNeedsDepartures(ds, departed, reached, chain, id, booth, h1, h2, threshold);
    }
  }

  /**
   * A booth of n = 3k + r servers, r < 3, whose entries reach exactly its `members` other than the proposer,
   * as the broadcast sends them (mmu.go:518-523): k + 1 - r departures are needed and enough.
   */
  lemma AgreementAmongMembers(n: nat, members: set<ServerId>, departed: set<ServerId>,
                              chain: nat, id: BlockId, booth: nat, h1: Digest, h2: Digest)
    requires n >= 1 && |members| == n - 1 && h1 != h2
    ensures (exists ds :: Conflict(ds, departed, members, chain, id, booth, h1, h2, GetThreshold(n)))
       <==> |departed * members| >= n / 3 + 1 - n % 3
  {
    assert 2 * GetThreshold(n) - |members| == n / 3 + 1 - n % 3;
    AgreementExactly(GetThreshold(n), members, departed, chain, id, booth, h1, h2);
  }

  /**
   * Because outsiders sign as members do, nobody has to depart once the entries reach k + 1 - r servers that
   * are not in the booth.
   */
  lemma OutsidersReplaceDepartures(n: nat, members: set<ServerId>, outsiders: set<ServerId>,
                                   chain: nat, id: BlockId, booth: nat, h1: Digest, h2: Digest)
    requires n >= 1 && |members| == n - 1 && members !! outsiders && h1 != h2
    ensures (exists ds :: Conflict(ds, {}, members + outsiders, chain, id, booth, h1, h2, GetThreshold(n)))
       <==> |outsiders| >= n / 3 + 1 - n % 3
  {
    var reached := members + outsiders;
    assert {} * reached == {} && |reached| == |members| + |outsiders|;
    assert 2 * GetThreshold(n) - |members| == n / 3 + 1 - n % 3;
    AgreementExactly(GetThreshold(n), reached, {}, chain, id, booth, h1, h2);
  }

  /** Any two quorums overlap in at least k + 1 - r members, and when that is positive some two overlap in no more. */
  lemma QuorumOverlap(n: nat, members: set<ServerId>)
    requires n >= 1 && |members| == n - 1
    ensures forall a: set<ServerId>, b: set<ServerId> ::
              a <= members && b <= members && |a| == GetThreshold(n) && |b| == GetThreshold(n)
              ==> |a * b| >= n / 3 + 1 - n % 3
    ensures n / 3 + 1 - n % 3 >= 0 ==>
            exists a: set<ServerId>, b: set<ServerId> ::
              && a <= members && b <= members && |a| == GetThreshold(n) && |b| == GetThreshold(n)
              && |a * b| == n / 3 + 1 - n % 3
  {
    var t := GetThreshold(n);
    assert 2 * t - |members| == n / 3 + 1 - n % 3;
    forall a: set<ServerId>, b: set<ServerId> | a <= members && b <= members && |a| == t && |b| == t
      ensures |a * b| >= n / 3 + 1 - n % 3
    {
      UnionSize(a, b);
      SubsetSize(a + b, members);
    }
    if 2 * t - |members| >= 0 {
      var shared := Pick(members, 2 * t - |members|);
      var a, b := TwoQuorums(members, shared, t);
    }
  }

  lemma ConflictNeedsDepartures(ds: seq<Delivery>, departed: set<ServerId>, reached: set<ServerId>,
                                chain: nat, id: BlockId, booth: nat, h1: Digest, h2: Digest, t: nat)
    requires h1 != h2 && Conflict(ds, departed, reached, chain, id, booth, h1, h2, t)
    ensures |departed * reached| >= 2 * t - |reached|
  {
    var b := Run(ds, departed);
    var q1: set<ServerId> :| |q1| == t && AllVoted(q1, b, chain, id, booth, h1);
    var q2: set<ServerId> :| |q2| == t && AllVoted(q2, b, chain, id, booth, h2);
    SignOnce(ds, departed);
    VotersWereReached(ds, departed, booth, reached);
    forall v | v in q1 ensures v in reached {
      assert Vote(v, chain, id, booth, h1) in b.cast;
    }
    forall v | v in q2 ensures v in reached {
      assert Vote(v, chain, id, booth, h2) in b.cast;
    }
    forall v | v in q1 * q2 ensures v in departed {
      var vote1, vote2 := Vote(v, chain, id, booth, h1), Vote(v, chain, id, booth, h2);
      assert vote1 in b.cast && vote2 in b.cast;
    }
    UnionSize(q1, q2);
    SubsetSize(q1 + q2, reached);
    SubsetSize(q1 * q2, departed * reached);
  }

  /** A server that keeps the guard gives at most one share per chain and block ID, over all booths. */
  lemma {:induction false} SignOnce(ds: seq<Delivery>, departed: set<ServerId>)
    ensures forall v :: v in Run(ds, departed).cast ==> (v.signer, v.chain, v.id) in Run(ds, departed).used
    ensures forall v, w :: v in Run(ds, departed).cast && w in Run(ds, departed).cast
                           && v.signer == w.signer && v.chain == w.chain && v.id == w.id && v.signer !in departed
                           ==> v == w
  {
    if ds != [] {
      SignOnce(ds[..|ds| - 1], departed);
    }
  }

  lemma {:induction false} VotersWereReached(ds: seq<Delivery>, departed: set<ServerId>, booth: nat,
                                             reached: set<ServerId>)
    requires SentWithin(ds, booth, reached)
    ensures forall v :: v in Run(ds, departed).cast && v.booth == booth ==> v.signer in reached
  {
    if ds != [] {
      VotersWereReached(ds[..|ds| - 1], departed, booth, reached);
    }
  }

  lemma ConflictSchedule(departed: set<ServerId>, reached: set<ServerId>,
                         chain: nat, id: BlockId, booth: nat, h1: Digest, h2: Digest, t: nat)
    returns (ds: seq<Delivery>)
    requires t <= |reached| && |departed * reached| >= 2 * t - |reached|
    ensures Conflict(ds, departed, reached, chain, id, booth, h1, h2, t)
  {
    var shared := Pick(departed * reached, if 2 * t > |reached| then 2 * t - |reached| else 0);
    var q1, q2 := TwoQuorums(reached, shared, t);
    assert Run([], departed) == Ballot({}, {});
    var ds1 := DeliverAll([], q1, departed, reached, chain, id, booth, h1);
    forall v | v in q2 ensures v in departed || (v, chain, id) !in Run(ds1, departed).used {
      assert v in q1 ==> v in shared;
    }
    ds := DeliverAll(ds1, q2, departed, reached, chain, id, booth, h2);
  }

  /** Extend a schedule by one delivery to every server in `q`, each of which then signs. */
  lemma {:induction false} DeliverAll(before: seq<Delivery>, q: set<ServerId>, departed: set<ServerId>,
                                      reached: set<ServerId>,
                                      chain: nat, id: BlockId, booth: nat, hash: Digest)
    returns (ds: seq<Delivery>)
    requires SentWithin(before, booth, reached) && q <= reached
    requires forall v :: v in q ==> v in departed || (v, chain, id) !in Run(before, departed).used
    ensures SentWithin(ds, booth, reached)
    ensures Run(before, departed).cast <= Run(ds, departed).cast
    ensures AllVoted(q, Run(ds, departed), chain, id, booth, hash)
    ensures Run(ds, departed).used == Run(before, departed).used + (set v | v in q :: (v, chain, id))
    decreases |q|
  {
    if q == {} {
      ds := before;
    } else {
      var v :| v in q;
      var next := before + [Delivery(v, chain, id, booth, hash)];
      assert next[..|next| - 1] == before;
      ds := DeliverAll(next, q - {v}, departed, reached, chain, id, booth, hash);
    }
  }

  ghost predicate Signed(b: Ballot, v: ServerId, chain: nat, booth: nat, hash: Digest)
  {
    exists id :: Vote(v, chain, id, booth, hash) in b.cast
  }

  ghost predicate AllSigned(q: set<ServerId>, b: Ballot, chain: nat, booth: nat, hash: Digest)
  {
    forall v :: v in q ==> Signed(b, v, chain, booth, hash)
  }

  /** What the combined signature itself attests: some `threshold` members signed the hash, for any block ID. */
  ghost predicate Verifiable(b: Ballot, chain: nat, booth: nat, hash: Digest, threshold: nat)
  {
    exists q: set<ServerId> :: |q| == threshold && AllSigned(q, b, chain, booth, hash)
  }

  /** Two certified hashes of one chain and booth, the second not under the block ID of the first. */
  ghost predicate VerifiesElsewhere(b: Ballot, chain: nat, id: BlockId, booth: nat, h0: Digest, h1: Digest,
                                    threshold: nat)
  {
    && Certifiable(b, chain, id, booth, h0, threshold)
    && Verifiable(b, chain, booth, h1, threshold) && !Certifiable(b, chain, id, booth, h1, threshold)
  }

  /**
   * Agreement holds for shares given under one block ID, not for what verification alone can tell
   * (comply.go:119-131 verifies the hash only). With nobody departing, a booth of any size that needs shares
   * at all can order a second block, whose signature verifies under the ID of the first and was not given for it.
   */
  lemma SignatureDoesNotBindBlockId(n: nat, members: set<ServerId>, chain: nat, id: BlockId, other: BlockId,
                                    booth: nat, h0: Digest, h1: Digest)
    requires n >= 1 && |members| == n - 1 && h0 != h1 && id != other
    ensures (exists ds ::
               SentWithin(ds, booth, members)
               && VerifiesElsewhere(Run(ds, {}), chain, id, booth, h0, h1, GetThreshold(n)))
       <==> n >= 3
  {
    var t := GetThreshold(n);
    if n >= 3 {
      var ds := TwoBlocks(members, chain, id, other, booth, h0, h1);
      var b := Run(ds, {});
      var q := Pick(members, t);
      assert AllVoted(q, b, chain, id, booth, h0);
      forall v | v in q ensures Signed(b, v, chain, booth, h1) {
        assert Vote(v, chain, other, booth, h1) in b.cast;
      }
      assert AllSigned(q, b, chain, booth, h1);
      OneHashPerBlock(ds, members, chain, id, booth, h0, h1, t);
    } else {
      var nobody: set<ServerId> := {};
      assert t == 0 == |nobody|;
      forall ds ensures Certifiable(Run(ds, {}), chain, id, booth, h1, t) {
        assert AllVoted(nobody, Run(ds, {}), chain, id, booth, h1);
      }
    }
  }

  /** Every server of `q` orders block `id` and then block `other`. */
  lemma TwoBlocks(q: set<ServerId>, chain: nat, id: BlockId, other: BlockId, booth: nat, h0: Digest, h1: Digest)
    returns (ds: seq<Delivery>)
    requires id != other
    ensures SentWithin(ds, booth, q)
    ensures AllVoted(q, Run(ds, {}), chain, id, booth, h0) && AllVoted(q, Run(ds, {}), chain, other, booth, h1)
  {
    assert Run([], {}) == Ballot({}, {});
    var ds1 := DeliverAll([], q, {}, q, chain, id, booth, h0);
    ds := DeliverAll(ds1, q, {}, q, chain, other, booth, h1);
  }

  lemma OneHashPerBlock(ds: seq<Delivery>, q: set<ServerId>, chain: nat, id: BlockId, booth: nat, h0: Digest,
                        h1: Digest, t: nat)
    requires h0 != h1 && t >= 1 && SentWithin(ds, booth, q) && AllVoted(q, Run(ds, {}), chain, id, booth, h0)
    ensures !Certifiable(Run(ds, {}), chain, id, booth, h1, t)
  {
    var b := Run(ds, {});
    SignOnce(ds, {});
    VotersWereReached(ds, {}, booth, q);
    forall w: set<ServerId> | |w| == t ensures !AllVoted(w, b, chain, id, booth, h1) {
      var v :| v in w;
      assert v in q ==> Vote(v, chain, id, booth, h0) in b.cast;
      assert Vote(v, chain, id, booth, h1) !in b.cast;
    }
  }

  /** The hash is signed for this chain and booth under one block ID only. */
  ghost predicate OneIdFor(ds: seq<Delivery>, chain: nat, id: BlockId, booth: nat, hash: Digest)
  {
    forall i :: 0 <= i < |ds| && ds[i].chain == chain && ds[i].booth == booth && ds[i].hash == hash ==> ds[i].id == id
  }

  lemma {:induction false} VotedUnderOneId(ds: seq<Delivery>, departed: set<ServerId>, chain: nat, id: BlockId,
                                           booth: nat, hash: Digest)
    requires OneIdFor(ds, chain, id, booth, hash)
    ensures forall v :: v in Run(ds, departed).cast && v.chain == chain && v.booth == booth && v.hash == hash ==>
              v.id == id
  {
    if ds != [] {
      VotedUnderOneId(ds[..|ds| - 1], departed, chain, id, booth, hash);
    }
  }

  /** All who signed the hash, under whatever ID. */
  function SignersOf(b: Ballot, chain: nat, booth: nat, hash: Digest): set<ServerId>
  {
    set w | w in b.cast && w.chain == chain && w.booth == booth && w.hash == hash :: w.signer
  }

  /** Those who signed it under this ID. */
  function SignersUnder(b: Ballot, chain: nat, id: BlockId, booth: nat, hash: Digest): set<ServerId>
  {
    set w | w in b.cast && w.chain == chain && w.id == id && w.booth == booth && w.hash == hash :: w.signer
  }

  lemma SignersMeet(b: Ballot, chain: nat, id: BlockId, booth: nat, hash: Digest)
    ensures forall v :: v in SignersOf(b, chain, booth, hash) <==> Signed(b, v, chain, booth, hash)
    ensures forall v :: v in SignersUnder(b, chain, id, booth, hash) <==> Vote(v, chain, id, booth, hash) in b.cast
  {
    forall v ensures v in SignersOf(b, chain, booth, hash) <==> Signed(b, v, chain, booth, hash) {
      if v in SignersOf(b, chain, booth, hash) {
        var w :| w in b.cast && w.chain == chain && w.booth == booth && w.hash == hash && w.signer == v;
        assert Vote(v, chain, w.id, booth, hash) in b.cast;
      }
    }
    forall v ensures v in SignersUnder(b, chain, id, booth, hash) <==> Vote(v, chain, id, booth, hash) in b.cast {
      if v in SignersUnder(b, chain, id, booth, hash) {
        var w :| w in b.cast && w.chain == chain && w.id == id && w.booth == booth && w.hash == hash && w.signer == v;
        assert w == Vote(v, chain, id, booth, hash);
      }
    }
  }

  /** A hash verifies, or is certified under an ID, if and only if enough servers signed it so. */
  lemma EnoughSigners(b: Ballot, chain: nat, id: BlockId, booth: nat, hash: Digest, t: nat)
    ensures Verifiable(b, chain, booth, hash, t) <==> |SignersOf(b, chain, booth, hash)| >= t
    ensures Certifiable(b, chain, id, booth, hash, t) <==> |SignersUnder(b, chain, id, booth, hash)| >= t
  {
    SignersMeet(b, chain, id, booth, hash);
    var all, under := SignersOf(b, chain, booth, hash), SignersUnder(b, chain, id, booth, hash);
    if Verifiable(b, chain, booth, hash, t) {
      var q: set<ServerId> :| |q| == t && AllSigned(q, b, chain, booth, hash);
      SubsetSize(q, all);
    }
    if |all| >= t {
      var q := Pick(all, t);
      assert AllSigned(q, b, chain, booth, hash);
    }
    if Certifiable(b, chain, id, booth, hash, t) {
      var q: set<ServerId> :| |q| == t && AllVoted(q, b, chain, id, booth, hash);
      SubsetSize(q, under);
    }
    if |under| >= t {
      var q := Pick(under, t);
      assert AllVoted(q, b, chain, id, booth, hash);
    }
  }

  /**
   * For a booth of n servers and its one threshold: a signature that verifies is one on this block ID if and
   * only if too few signed the hash for any signature, or enough did under this ID.
   */
  lemma SignatureBindsAtThreshold(b: Ballot, chain: nat, id: BlockId, booth: nat, hash: Digest, n: nat)
    ensures var t := GetThreshold(n);
            (Verifiable(b, chain, booth, hash, t) ==> Certifiable(b, chain, id, booth, hash, t))
            <==> |SignersOf(b, chain, booth, hash)| < t || |SignersUnder(b, chain, id, booth, hash)| >= t
  {
    EnoughSigners(b, chain, id, booth, hash, GetThreshold(n));
  }

  /** Whoever signed the hash did so under this ID. */
  ghost predicate OnlyUnder(b: Ballot, chain: nat, id: BlockId, booth: nat, hash: Digest)
  {
    forall v :: Signed(b, v, chain, booth, hash) ==> Vote(v, chain, id, booth, hash) in b.cast
  }

  /** However many shares it takes, a signature that verifies is one on this block ID. */
  ghost predicate Binds(b: Ballot, chain: nat, id: BlockId, booth: nat, hash: Digest)
  {
    forall t: nat :: Verifiable(b, chain, booth, hash, t) ==> Certifiable(b, chain, id, booth, hash, t)
  }

  lemma SignatureBindsExactly(b: Ballot, chain: nat, id: BlockId, booth: nat, hash: Digest)
    ensures Binds(b, chain, id, booth, hash) <==> OnlyUnder(b, chain, id, booth, hash)
  {
    if OnlyUnder(b, chain, id, booth, hash) {
      forall t: nat | Verifiable(b, chain, booth, hash, t) ensures Certifiable(b, chain, id, booth, hash, t) {
        var q: set<ServerId> :| |q| == t && AllSigned(q, b, chain, booth, hash);
        assert AllVoted(q, b, chain, id, booth, hash);
      }
    } else {
      SignersUnderOtherId(b, chain, id, booth, hash);
    }
  }

  /**
   * All signers of the hash together verify, and are too many to be certified under an ID that not all of them
   * used.
   */
  lemma SignersUnderOtherId(b: Ballot, chain: nat, id: BlockId, booth: nat, hash: Digest)
    requires !OnlyUnder(b, chain, id, booth, hash)
    ensures !Binds(b, chain, id, booth, hash)
  {
    SignersMeet(b, chain, id, booth, hash);
    var all, under := SignersOf(b, chain, booth, hash), SignersUnder(b, chain, id, booth, hash);
    var v :| Signed(b, v, chain, booth, hash) && Vote(v, chain, id, booth, hash) !in b.cast;
    SubsetSize(under, all - {v});
    EnoughSigners(b, chain, id, booth, hash, |all|);
    assert Verifiable(b, chain, booth, hash, |all|);
  }

  /** A hash sent out under one block ID only, as one whose entries are new, is bound to that ID. */
  lemma OneIdBinds(ds: seq<Delivery>, departed: set<ServerId>, chain: nat, id: BlockId, booth: nat, hash: Digest)
    requires OneIdFor(ds, chain, id, booth, hash)
    ensures Binds(Run(ds, departed), chain, id, booth, hash)
  {
    VotedUnderOneId(ds, departed, chain, id, booth, hash);
    SignatureBindsExactly(Run(ds, departed), chain, id, booth, hash);
  }
}
