/** Runs that show what the protocol does not guarantee, and when it does. */
module ProtocolRuns {
  import opened Types
  import opened Signatures
  import opened IdRecorders
  import opened BoothRegistry
  import opened Proposers
  import opened Validators
  import opened Protocol
  import opened ProtocolSteps
  import opened ProtocolTheorems

  // ----- The first block of a run -----

  /** The first block has been proposed in `booth` and has gathered `sigs`; its signature is not stored. */
  ghost predicate OneBlock(c: Config, s: System, booth: Booth, entries: Entries, sigs: seq<Share>)
  {
    && s.p.ord == map[0 := Snapshot(OfBlock(entries), entries, sigs, None, booth)]
    && s.p.cmt == map[0 := Snapshot(OfBlock(entries), entries, [], None, booth)]
    && s.p.reg == Registry([booth], map[Key(booth.indices) := 0])
    && booth.id == 0 && |booth.indices| == 4 && s.p.consInstID == 0 && s.p.metaSigs == map[]
    && forall v :: v in Recipients(c, booth) ==> OPA(v, booth, 0, entries, OfBlock(entries)) in s.sent
  }

  lemma SortedMembers(pattern: seq<ServerId>)
    ensures |SortInts(pattern)| == |pattern| && Sorted(SortInts(pattern))
    ensures forall v :: v in SortInts(pattern) <==> v in pattern
  {
    assert |multiset(SortInts(pattern))| == |multiset(pattern)|;
    forall v ensures v in SortInts(pattern) <==> v in pattern {
      assert v in multiset(SortInts(pattern)) <==> v in multiset(pattern);
    }
  }

  lemma FirstProposal(c: Config, vehicles: seq<ServerId>, entries: Entries)
    requires |vehicles| == 3
    ensures var s, booth := Propose(c, INITIAL_SYSTEM, vehicles, entries), Booth(0, SortInts([c.self] + vehicles));
            OneBlock(c, s, booth, entries, []) && s.p.rec == Recorder([], 0) && s.orderCerts == map[] && s.vs == map[]
  {
    SortedMembers([c.self] + vehicles);
    var s, booth := Propose(c, INITIAL_SYSTEM, vehicles, entries), Booth(0, SortInts([c.self] + vehicles));
    assert ProposeStep(INITIAL_PROPOSER, [c.self] + vehicles, entries).1 == booth;
    assert s.sent == Proposals(c, booth, 0, entries);
  }

  /** Server v may vote: it is faulty, or a member that has not voted yet. */
  ghost predicate MayVote(c: Config, s: System, booth: Booth, v: ServerId)
  {
    v in c.faulty || (v in Recipients(c, booth) && v !in s.vs)
  }

  /** Server v signs the block. */
  lemma VoteCast(c: Config, s: System, booth: Booth, entries: Entries, sigs: seq<Share>, v: ServerId)
    returns (s': System)
    requires Reachable(c, s) && OneBlock(c, s, booth, entries, sigs) && MayVote(c, s, booth, v)
    ensures Reachable(c, s') && s'.p == s.p && s'.orderCerts == s.orderCerts && s'.vs.Keys <= s.vs.Keys + {v}
    ensures s'.sent == s.sent + {OPAReply(v, 0, Share(v, 0, OfBlock(entries)))}
  {
    var reply := OPAReply(v, 0, Share(v, 0, OfBlock(entries)));
    if v in c.faulty {
      ReachableNext(c, s, FaultyReply(reply));
      s' := Next(c, s, FaultyReply(reply));
    } else {
      var opa := OPA(v, booth, 0, entries, OfBlock(entries));
      ReachableNext(c, s, Validate(opa));
      s' := Next(c, s, Validate(opa));
    }
  }

  /** Server v signs and its reply is handled; the second one completes the share list. */
  lemma VoteCounts(c: Config, s: System, booth: Booth, entries: Entries, sigs: seq<Share>, v: ServerId)
    returns (s': System)
    requires Reachable(c, s) && OneBlock(c, s, booth, entries, sigs) && |sigs| < 2 && MayVote(c, s, booth, v)
    ensures Reachable(c, s') && OneBlock(c, s', booth, entries, sigs + [Share(v, 0, OfBlock(entries))])
            && s'.vs.Keys <= s.vs.Keys + {v}
    ensures var now := sigs + [Share(v, 0, OfBlock(entries))];
            Recorded(s, s', if |sigs| == 1 then PenRecovery(now, OfBlock(entries), 0, 4) else None)
  {
    var share := Share(v, 0, OfBlock(entries));
    var s1 := VoteCast(c, s, booth, entries, sigs, v);
    ReachableNext(c, s1, HandleOrderReply(OPAReply(v, 0, share)));
    s' := TakeOrderReply(s1, 0, share);
    ReplyRecorded(c, s1, booth, entries, sigs, share);
  }

  ghost predicate Recorded(s: System, s': System, cert: Option<Cert>)
  {
    && s'.p.rec == (if cert.Some? then Recorder(s.p.rec.blockIDs + [0], s.p.rec.lastIdx) else s.p.rec)
    && s'.orderCerts == (if cert.Some? then s.orderCerts[0 := cert.value] else s.orderCerts)
  }

  lemma ReplyAppended(c: Config, s: System, booth: Booth, entries: Entries, sigs: seq<Share>, share: Share)
    requires OneBlock(c, s, booth, entries, sigs) && |sigs| < 2
    ensures Open(s.p, 0) && OneBlock(c, TakeOrderReply(s, 0, share), booth, entries, sigs + [share])
  {
    assert GetThreshold(4) == 2;
    OrderReplyShape(s, 0, share);
  }

  lemma ReplyRecorded(c: Config, s: System, booth: Booth, entries: Entries, sigs: seq<Share>, share: Share)
    requires OneBlock(c, s, booth, entries, sigs) && |sigs| < 2
    ensures var s' := TakeOrderReply(s, 0, share);
            && OneBlock(c, s', booth, entries, sigs + [share]) && s'.vs == s.vs
            && Recorded(s, s', if |sigs| == 1 then PenRecovery(sigs + [share], OfBlock(entries), 0, 4) else None)
  {
    assert GetThreshold(4) == 2;
    ReplyAppended(c, s, booth, entries, sigs, share);
  }

  lemma TwoSharesRecover(sigs: seq<Share>, hash: Digest)
    requires |sigs| == 2 && sigs[0].signer != sigs[1].signer && ValidShare(sigs[0], 0, hash)
             && ValidShare(sigs[1], 0, hash)
    ensures PenRecovery(sigs, hash, 0, 4).Some? && sigs[1].signer in PenRecovery(sigs, hash, 0, 4).value.signers
  {
    assert ValidShares(sigs, 0, hash);
  }

  /** Two servers sign, the block is certified and recorded, and its combined signature is not yet stored. */
  lemma BothVote(c: Config, s0: System, booth: Booth, entries: Entries, x: ServerId, y: ServerId)
    returns (s: System, sigs: seq<Share>)
    requires Reachable(c, s0) && OneBlock(c, s0, booth, entries, []) && s0.p.rec == Recorder([], 0) && s0.vs == map[]
    requires MayVote(c, s0, booth, x) && MayVote(c, s0, booth, y) && x != y
    ensures Reachable(c, s) && s.p.rec == Recorder([0], 0) && s.vs.Keys <= {x, y}
    ensures 0 in s.orderCerts && y in s.orderCerts[0].signers
    ensures OneBlock(c, s, booth, entries, sigs)
  {
    var a, b := Share(x, 0, OfBlock(entries)), Share(y, 0, OfBlock(entries));
    var s1 := VoteCounts(c, s0, booth, entries, [], x);
    assert [] + [a] == [a];
    s := VoteCounts(c, s1, booth, entries, [a], y);
    sigs := [a] + [b];
    TwoSharesRecover(sigs, OfBlock(entries));
  }

  lemma RecordedBeforeStored(c: Config, vehicles: seq<ServerId>, entries: Entries, x: ServerId, y: ServerId)
    returns (s: System, sigs: seq<Share>)
    requires |vehicles| == 3 && entries != map[] && x != y && x != c.self && y != c.self
    requires (x in c.faulty || x in vehicles) && (y in c.faulty || y in vehicles)
    ensures Reachable(c, s) && s.p.rec == Recorder([0], 0) && s.vs.Keys <= {x, y}
    ensures 0 in s.orderCerts && y in s.orderCerts[0].signers
    ensures OneBlock(c, s, Booth(0, SortInts([c.self] + vehicles)), entries, sigs)
  {
    SortedMembers([c.self] + vehicles);
    assert IsRun(c, [INITIAL_SYSTEM], []) && INITIAL_SYSTEM in [INITIAL_SYSTEM];
    ReachableNext(c, INITIAL_SYSTEM, ProposeBlock(vehicles, entries));
    FirstProposal(c, vehicles, entries);
    s, sigs := BothVote(c, Propose(c, INITIAL_SYSTEM, vehicles, entries), Booth(0, SortInts([c.self] + vehicles)),
                        entries, x, y);
  }

  // ----- Signers that are not members -----

  ghost predicate SignersAreMembers(s: System)
  {
    forall b :: b in s.orderCerts ==>
      b in s.p.ord && forall v :: v in s.orderCerts[b].signers ==> v in s.p.ord[b].booth.indices
  }

  /**
   * That the signers of a certificate are members of the block's booth comes of whom the block is sent to;
   * the shares are not checked for it. So it holds in every reachable state if and only if no server is faulty.
   */
  lemma SignersAreMembersExactly(c: Config)
    requires c.self !in c.faulty
    ensures (forall s :: Reachable(c, s) ==> SignersAreMembers(s)) <==> c.faulty == {}
  {
    if c.faulty == {} {
      forall s | Reachable(c, s) ensures SignersAreMembers(s) {
        forall b | b in s.orderCerts
          ensures b in s.p.ord && forall v :: v in s.orderCerts[b].signers ==> v in s.p.ord[b].booth.indices {
          OrderedBlock(c, s, b);
          assert forall v :: v in s.orderCerts[b].signers ==> HoldsBlock(c, s, v, b);
        }
      }
    } else {
      var f :| f in c.faulty;
      var s := OutsiderSigns(c, f);
    }
  }

  /** Three servers other than the given two. */
  function Others(a: ServerId, b: ServerId): (r: seq<ServerId>)
    ensures |r| == 3 && a !in r && b !in r && r[0] != r[1]
  {
    [a + b + 1, a + b + 2, a + b + 3]
  }

  lemma OutsiderSigns(c: Config, f: ServerId) returns (s: System)
    requires f in c.faulty && f != c.self
    ensures Reachable(c, s) && !SignersAreMembers(s)
  {
    var vehicles := Others(c.self, f);
    var entries: Entries := map[0 := Entry(0, [])];
    assert 0 in entries;
    SortedMembers([c.self] + vehicles);
    var sigs;
    s, sigs := RecordedBeforeStored(c, vehicles, entries, vehicles[0], f);
    assert f !in s.p.ord[0].booth.indices;
  }

  // ----- A member left without a block it signs for -----

  lemma KeysDiffer(a: seq<ServerId>, b: seq<ServerId>, v: ServerId)
    requires Sorted(a) && Sorted(b) && |a| == |b| && v in a && v !in b
    requires forall i :: 0 <= i < |a| ==> a[i] < 100 && b[i] < 100
    ensures Key(a) != Key(b)
  {
    if Key(a) == Key(b) {
      KeyInjectiveBelow100(a, b);
    }
  }

  /** Another member list of the same length and with IDs below 100 has a booth of its own. */
  lemma SecondBooth(p: ProposerState, booth: Booth, pattern: seq<ServerId>, v: ServerId)
    requires p.reg == Registry([booth], map[Key(booth.indices) := 0]) && Sorted(booth.indices)
    requires |pattern| == |booth.indices| && v in pattern && v !in booth.indices
    requires forall x :: x in pattern || x in booth.indices ==> x < 100
    ensures v in CommitBooth(p, pattern).indices
  {
    var members := SortInts(pattern);
    SortedMembers(pattern);
    assert forall i :: 0 <= i < |members| ==> members[i] in pattern && booth.indices[i] in booth.indices;
    KeysDiffer(members, booth.indices, v);
  }

  lemma LeftWithout(c: Config, first: seq<ServerId>, second: seq<ServerId>, entries: Entries, v: ServerId)
    returns (s: System, m: Msg)
    requires c.faulty == {} && |first| == |second| == 3 && entries != map[]
    requires first[0] != first[1] && c.self !in first && v in second && v !in first && v != c.self
    requires c.self < 100 && forall x :: x in first || x in second ==> x < 100
    ensures Reachable(c, s) && m in s.sent && m.CPA? && m.to == v && 0 in m.cpa.bids && 0 in s.orderCerts && v !in s.vs
    ensures 0 !in CatchUp(INITIAL_VALIDATOR, m.cpa.prev).cmt
  {
    var booth := Booth(0, SortInts([c.self] + first));
    SortedMembers([c.self] + first);
    var before, sigs := RecordedBeforeStored(c, first, entries, first[0], first[1]);
    SecondBooth(before.p, booth, [c.self] + second, v);
    ReachableNext(c, before, StartInstance(second));
    s := Start(c, before, second);
    var e := EntryTo(c, before, second, v);
    m := CPA(v, e);
    OneMessagePerMember(c, before, second, v, e);
    CatchUpExactlyWhenStored(c, before, second, v, 0, INITIAL_VALIDATOR);
    StartKeepsTheRest(c, before, second);
  }

  lemma StartKeepsTheRest(c: Config, s: System, vehicles: seq<ServerId>)
    requires s.p.rec.Valid()
    ensures Start(c, s, vehicles).vs == s.vs && Start(c, s, vehicles).orderCerts == s.orderCerts
  {
  }

  /**
   * The catch-up can fail: a correct member of a commit booth is announced a certified block it never had,
   * is sent it without a certificate, does not store it, and signs the instance all the same.
   */
  lemma SignsWithoutBlock() returns (c: Config, s: System, m: Msg)
    ensures Reachable(c, s) && m in s.sent && m.CPA? && m.to !in c.faulty && 0 in m.cpa.bids && 0 in s.orderCerts
    ensures var (v, reply) := CAStep(ValidatorOf(s, m.to), m.to, m.cpa);
            reply.Some? && 0 !in v.cmt
  {
    c := Config(0, {});
    var entries: Entries := map[0 := Entry(0, [])];
    assert 0 in entries;
    s, m := LeftWithout(c, [1, 2, 3], [1, 2, 4], entries, 4);
    ContentAgreement(c, s, m);
  }

  // ----- A run that commits -----

  /** Instance 0 runs in `booth` and has gathered `sigs`. */
  ghost predicate OneInstance(s: System, booth: Booth, hash: Digest, sigs: seq<Share>)
  {
    && 0 in s.p.metaHash && s.p.metaHash[0] == hash && ResidingBooth(s.p, 0) == booth && SigsOf(s.p, 0) == sigs
    && booth.id == 0 && |booth.indices| == 4
  }

  /** A round in the booth of the first block: it is found again under its key. */
  lemma SameBoothAgain(p: ProposerState, booth: Booth, pattern: seq<ServerId>)
    requires p.reg == Registry([booth], map[Key(booth.indices) := 0]) && booth.indices == SortInts(pattern)
    ensures CommitBooth(p, pattern) == booth
  {
  }

  lemma FirstRound(c: Config, s: System, vehicles: seq<ServerId>, entries: Entries, sigs: seq<Share>)
    returns (s': System)
    requires Reachable(c, s) && |vehicles| == 3 && s.p.rec == Recorder([0], 0)
    requires OneBlock(c, s, Booth(0, SortInts([c.self] + vehicles)), entries, sigs)
    ensures Reachable(c, s') && s'.vs == s.vs && s'.commitCerts == s.commitCerts
    ensures 0 in s'.p.metaHash && OneInstance(s', Booth(0, SortInts([c.self] + vehicles)), s'.p.metaHash[0], [])
    ensures 0 in s'.p.metaBids && s'.p.metaBids[0] == [0]
    ensures forall v :: v in vehicles && v != c.self ==> Invited(s', 0, v)
  {
    var booth := Booth(0, SortInts([c.self] + vehicles));
    SortedMembers([c.self] + vehicles);
    SameBoothAgain(s.p, booth, [c.self] + vehicles);
    ReachableNext(c, s, StartInstance(vehicles));
    s' := Start(c, s, vehicles);
    RoundOpens(c, s, vehicles);
    forall v | v in vehicles && v != c.self ensures Invited(s', 0, v) {
      OneMessagePerMember(c, s, vehicles, v, EntryTo(c, s, vehicles, v));
    }
  }

  /** Nobody holds a token of an instance that has not been announced. */
  lemma NoTokenYet(c: Config, s: System)
    requires Reachable(c, s)
    ensures forall v :: s.p.consInstID !in ValidatorOf(s, v).tokens
  {
    ReachableInv(c, s);
    ProposerMeans(c, s);
    InstancesMean(s.p);
    forall v ensures s.p.consInstID !in ValidatorOf(s, v).tokens {
      BeforeOk(c, s, v);
    }
  }

  lemma RoundOpens(c: Config, s: System, vehicles: seq<ServerId>)
    requires Reachable(c, s) && s.p.rec.Valid() && s.p.rec.Unread() != []
    ensures var s' := Start(c, s, vehicles);
            && s'.vs == s.vs && s'.commitCerts == s.commitCerts && s'.p.metaSigs == s.p.metaSigs
            && s.p.consInstID in s'.p.metaHash
            && ResidingBooth(s'.p, s.p.consInstID) == CommitBooth(s.p, [c.self] + vehicles)
            && s.p.consInstID in s'.p.metaBids && s'.p.metaBids[s.p.consInstID] == s.p.rec.Unread()
  {
    ReachableInv(c, s);
    InvJoins(c, s);
    var booth := StartIsStarted(c, s, vehicles);
  }

  /** Member v handles the announcement and signs. */
  lemma InstanceSigned(c: Config, s: System, booth: Booth, hash: Digest, sigs: seq<Share>, v: ServerId)
    returns (s': System)
    requires Reachable(c, s) && OneInstance(s, booth, hash, sigs) && Invited(s, 0, v) && v !in c.faulty
    requires 0 !in ValidatorOf(s, v).tokens
    ensures Reachable(c, s') && s'.p == s.p && s'.commitCerts == s.commitCerts && s.sent <= s'.sent
    ensures CPAReply(v, 0, Share(v, 0, hash)) in s'.sent && 0 in ValidatorOf(s', v).tokens
    ensures forall u :: u != v ==> ValidatorOf(s', u) == ValidatorOf(s, u)
  {
    var e :| CPA(v, e) in s.sent && e.inst == 0;
    ReachableInv(c, s);
    MsgHolds(c, s, CPA(v, e));
    ContentAgreement(c, s, CPA(v, e));
    ReachableNext(c, s, Validate(CPA(v, e)));
    s' := Next(c, s, Validate(CPA(v, e)));
  }

  /** Its reply is handled in one go; the second one completes the share list. */
  lemma InstanceCounts(c: Config, s: System, booth: Booth, hash: Digest, sigs: seq<Share>, share: Share)
    returns (s': System)
    requires Reachable(c, s) && OneInstance(s, booth, hash, sigs) && |sigs| < 2
             && CPAReply(share.signer, 0, share) in s.sent
    ensures Reachable(c, s') && OneInstance(s', booth, hash, sigs + [share]) && s'.vs == s.vs && s.sent <= s'.sent
    ensures s'.p.metaBids == s.p.metaBids
    ensures var cert := if |sigs| == 1 then PenRecovery(sigs + [share], hash, 0, 4) else None;
            cert.Some? ==>
                0 in s'.commitCerts && s'.commitCerts[0] == cert.value && Commits(c, s.p, 0, cert.value) <= s'.sent
  {
    assert GetThreshold(4) == 2;
    var reply := CPAReply(share.signer, 0, share);
    ReachableNext(c, s, ReadShares(reply));
    var s1 := Read(s, 0, share);
    var l := Local(0, sigs, share);
    ReachableNext(c, s1, WriteShares(l));
    s' := Write(c, s1, l);
    WriteExtends(c, s1, l);
  }

  /** The commit certificate reaches member v, whose CB handler goes through. */
  lemma InstanceCommitted(c: Config, s: System, booth: Booth, hash: Digest, cert: Cert, v: ServerId)
    returns (s': System)
    requires Reachable(c, s) && CPB(v, booth, 0, cert, hash) in s.sent && v !in c.faulty
             && 0 in ValidatorOf(s, v).tokens
    requires cert.boothId == booth.id && cert.digest == hash
    ensures Reachable(c, s') && s'.p == s.p && s'.commitCerts == s.commitCerts && v in s'.vs && 0 in s'.vs[v].committed
  {
    ReachableNext(c, s, Validate(CPB(v, booth, 0, cert, hash)));
    s' := Next(c, s, Validate(CPB(v, booth, 0, cert, hash)));
  }

  /** Two members sign the instance and one of them commits it. */
  lemma BothSign(c: Config, s0: System, booth: Booth, hash: Digest, x: ServerId, y: ServerId) returns (s: System)
    requires Reachable(c, s0) && OneInstance(s0, booth, hash, []) && c.faulty == {} && x != y
    requires Invited(s0, 0, x) && Invited(s0, 0, y) && x in booth.indices && x != c.self
    requires 0 !in ValidatorOf(s0, x).tokens && 0 !in ValidatorOf(s0, y).tokens
    ensures Reachable(c, s) && 0 in s.commitCerts && s.p.metaBids == s0.p.metaBids && x in s.vs
            && 0 in s.vs[x].committed
  {
    var a, b := Share(x, 0, hash), Share(y, 0, hash);
    var s1 := InstanceSigned(c, s0, booth, hash, [], x);
    var s2 := InstanceCounts(c, s1, booth, hash, [], a);
    assert [] + [a] == [a];
    assert Invited(s2, 0, y) && ValidatorOf(s2, y) == ValidatorOf(s1, y) == ValidatorOf(s0, y);
    var s3 := InstanceSigned(c, s2, booth, hash, [a], y);
    var s4 := InstanceCounts(c, s3, booth, hash, [a], b);
    TwoSharesRecover([a] + [b], hash);
    var cert := PenRecovery([a] + [b], hash, 0, 4).value;
    CommitSent(c, s3, booth, hash, cert, x);
    assert ValidatorOf(s4, x) == ValidatorOf(s3, x) == ValidatorOf(s2, x) == ValidatorOf(s1, x);
    s := InstanceCommitted(c, s4, booth, hash, cert, x);
  }

  lemma CommitSent(c: Config, s: System, booth: Booth, hash: Digest, cert: Cert, v: ServerId)
    requires Reachable(c, s) && 0 in s.p.metaHash && s.p.metaHash[0] == hash && ResidingBooth(s.p, 0) == booth
    requires v in booth.indices && v != c.self
    ensures CPB(v, booth, 0, cert, hash) in Commits(c, s.p, 0, cert)
  {
    CommitFollowsAnnouncement(c, s, 0, cert, v);
  }

  /** A state in which an instance that covers a block is certified and a member has committed it. */
  lemma CommitsInstance() returns (c: Config, s: System, v: ServerId)
    ensures Reachable(c, s) && 0 in s.commitCerts && 0 in s.p.metaBids && 0 in s.p.metaBids[0]
    ensures v in s.vs && 0 in s.vs[v].committed
  {
    c, v := Config(0, {}), 1;
    s := CommitsWith(c, [1, 2, 3], map[0 := Entry(0, [])]);
  }

  lemma CommitsWith(c: Config, vehicles: seq<ServerId>, entries: Entries) returns (s: System)
    requires c.faulty == {} && |vehicles| == 3 && 0 in entries && c.self !in vehicles && vehicles[0] != vehicles[1]
    ensures Reachable(c, s) && 0 in s.commitCerts && 0 in s.p.metaBids && 0 in s.p.metaBids[0]
    ensures vehicles[0] in s.vs && 0 in s.vs[vehicles[0]].committed
  {
    var booth := Booth(0, SortInts([c.self] + vehicles));
    SortedMembers([c.self] + vehicles);
    var s0, sigs := RecordedBeforeStored(c, vehicles, entries, vehicles[0], vehicles[1]);
    NoTokenYet(c, s0);
    var s1 := FirstRound(c, s0, vehicles, entries, sigs);
    assert ValidatorOf(s1, vehicles[0]) == ValidatorOf(s0, vehicles[0]);
    assert ValidatorOf(s1, vehicles[1]) == ValidatorOf(s0, vehicles[1]);
    s := BothSign(c, s1, booth, s1.p.metaHash[0], vehicles[0], vehicles[1]);
  }
}
