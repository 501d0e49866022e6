/** What the protocol guarantees in every state of every run. */
module ProtocolTheorems {
  import opened Quorums
  import opened Types
  import opened Signatures
  import opened BoothRegistry
  import opened Instances
  import opened Proposers
  import opened Validators
  import opened Protocol
  import opened ProtocolSteps

  ghost predicate Reachable(c: Config, s: System)
  {
    exists states: seq<System>, steps: seq<Step> :: IsRun(c, states, steps) && s in states
  }

  lemma ReachableInv(c: Config, s: System)
    requires Reachable(c, s)
    ensures InvOf(c, s, OfProposer) && InvOf(c, s, OfLedger) && InvOf(c, s, OfTraffic)
  {
    var states: seq<System>, steps: seq<Step> :| IsRun(c, states, steps) && s in states;
    var i :| 0 <= i < |states| && states[i] == s;
    RunKeepsInv(c, states, steps, i);
    InvSplits(c, s);
  }

  /** A run can be cut at any of its states and go on with any step enabled there. */
  lemma ReachableNext(c: Config, s: System, step: Step)
    requires Reachable(c, s) && Enabled(c, s, step)
    ensures Reachable(c, Next(c, s, step))
  {
    var states: seq<System>, steps: seq<Step> :| IsRun(c, states, steps) && s in states;
    var i :| 0 <= i < |states| && states[i] == s;
    RunGoesOn(c, states, steps, i, step, Next(c, s, step));
  }

  lemma RunGoesOn(c: Config, states: seq<System>, steps: seq<Step>, i: nat, step: Step, next: System)
    requires IsRun(c, states, steps) && i < |states| && Enabled(c, states[i], step) && next == Next(c, states[i], step)
    ensures Reachable(c, next)
  {
    var states', steps' := states[..i + 1] + [next], steps[..i] + [step];
    forall k | 0 <= k < |steps'|
      ensures Enabled(c, states'[k], steps'[k]) && states'[k + 1] == Next(c, states'[k], steps'[k]) {
      if k < i {
        assert states'[k] == states[k] && states'[k + 1] == states[k + 1] && steps'[k] == steps[k];
        assert Enabled(c, states[k], steps[k]) && states[k + 1] == Next(c, states[k], steps[k]);
      } else {
        assert states'[k] == states[i] && states'[k + 1] == next && steps'[k] == step;
      }
    }
    assert IsRun(c, states', steps') && states'[i + 1] in states';
  }

  // ----- Quorums are never empty -----

  /** Every booth has the proposer and at least three vehicles: shorter lists are waited out (mmu.go:288-290). */
  ghost predicate FullBooths(reg: Registry)
  {
    forall i :: 0 <= i < |reg.b| ==> |reg.b[i].indices| >= 4
  }

  lemma LookupFull(reg: Registry, pattern: seq<ServerId>)
    requires FullBooths(reg) && |pattern| >= 4
    ensures FullBooths(Lookup(reg, pattern).0)
  {
    var members := SortInts(pattern);
    SameLength(members, pattern);
    var reg' := Enter(reg, members).0;
    assert reg'.b == reg.b || reg'.b == reg.b + [Booth(|reg.b|, members)];
  }

  lemma SameLength(a: seq<ServerId>, b: seq<ServerId>)
    requires multiset(a) == multiset(b)
    ensures |a| == |b|
  {
    assert |multiset(a)| == |a| && |multiset(b)| == |b|;
  }

  /** Only a proposal and a round look a booth up that may be new. */
  lemma RegistryAfter(c: Config, s: System, step: Step)
    requires Enabled(c, s, step)
    ensures var reg := Next(c, s, step).p.reg;
            match step
            case ProposeBlock(vehicles, _) => reg == Lookup(s.p.reg, [c.self] + vehicles).0
            case StartInstance(vehicles) => reg == Lookup(s.p.reg, [c.self] + vehicles).0
            case _ => reg == s.p.reg
  {
  }

  lemma NextFull(c: Config, s: System, step: Step)
    requires Enabled(c, s, step) && FullBooths(s.p.reg)
    ensures FullBooths(Next(c, s, step).p.reg)
  {
    RegistryAfter(c, s, step);
    match step {
      case ProposeBlock(vehicles, _) => LookupFull(s.p.reg, [c.self] + vehicles);
      case StartInstance(vehicles) => LookupFull(s.p.reg, [c.self] + vehicles);
      case _ =>
    }
  }

  lemma {:induction false} RunFull(c: Config, states: seq<System>, steps: seq<Step>, i: nat)
    requires IsRun(c, states, steps) && i < |states|
    ensures FullBooths(states[i].p.reg)
  {
    if i > 0 {
      RunFull(c, states, steps, i - 1);
      NextFull(c, states[i - 1], steps[i - 1]);
    }
  }

  /** In every reachable state the blocks and instances are in booths whose threshold is at least 2. */
  lemma ThresholdsAtLeastTwo(c: Config, s: System)
    requires Reachable(c, s)
    ensures forall b :: b in s.p.ord ==> GetThreshold(|s.p.ord[b].booth.indices|) >= 2
    ensures forall i :: i in s.p.metaHash ==>
              i in s.p.dataBoo && GetThreshold(|s.p.dataBoo[i].indices|) >= 2
  {
    var states: seq<System>, steps: seq<Step> :| IsRun(c, states, steps) && s in states;
    var n :| 0 <= n < |states| && states[n] == s;
    RunFull(c, states, steps, n);
    ReachableInv(c, s);
    forall b | b in s.p.ord ensures GetThreshold(|s.p.ord[b].booth.indices|) >= 2 {
      BlockHolds(c, s, b);
    }
    forall i | i in s.p.metaHash ensures i in s.p.dataBoo && GetThreshold(|s.p.dataBoo[i].indices|) >= 2 {
      InstanceHolds(c, s, i);
    }
  }

  // ----- End-to-end safety -----

  /** A correct member of the block's ordering booth, other than the proposer, that holds the block as proposed. */
  ghost predicate HoldsBlock(c: Config, s: System, v: ServerId, b: BlockId)
    requires b in s.p.ord
  {
    && v in s.p.ord[b].booth.indices && v != c.self
    && b in ValidatorOf(s, v).ord && SameBlock(ValidatorOf(s, v).ord[b], s.p.ord[b])
  }

  /**
   * A quorum signed the block's hash: as many distinct servers as the booth's threshold, the faulty ones aside all
   * members holding it.
   */
  ghost predicate OrderedByQuorum(c: Config, s: System, b: BlockId)
  {
    && b in s.p.ord && b in s.orderCerts && s.orderCerts[b].digest == OfBlock(s.p.ord[b].entries)
    && |s.orderCerts[b].signers| == GetThreshold(|s.p.ord[b].booth.indices|)
    && forall v :: v in s.orderCerts[b].signers && v !in c.faulty ==> HoldsBlock(c, s, v, b)
  }

  lemma OrderedBlock(c: Config, s: System, b: BlockId)
    requires Reachable(c, s) && b in s.orderCerts
    ensures OrderedByQuorum(c, s, b)
  {
    ReachableInv(c, s);
    ProposerMeans(c, s);
    LedgerMeans(c, s);
    TrafficMeans(c, s);
    var cert := s.orderCerts[b];
    assert OrderCertOk(s, b, cert) && BlockOk(s.p, b);
    forall v | v in cert.signers && v !in c.faulty ensures HoldsBlock(c, s, v, b) {
      SignerHolds(c, s, v, b, cert);
    }
  }

  /** With fewer faulty servers than the threshold, a correct member holds the certified block as proposed. */
  lemma SomeoneCorrectHolds(c: Config, s: System, b: BlockId) returns (v: ServerId)
    requires Reachable(c, s) && b in s.orderCerts && b in s.p.ord
             && |c.faulty| < GetThreshold(|s.p.ord[b].booth.indices|)
    ensures v !in c.faulty && HoldsBlock(c, s, v, b)
  {
    OrderedBlock(c, s, b);
    var signers := s.orderCerts[b].signers;
    if signers <= c.faulty {
      SubsetSize(signers, c.faulty);
    }
    v :| v in signers && v !in c.faulty;
  }

  lemma SignerHolds(c: Config, s: System, v: ServerId, b: BlockId, cert: Cert)
    requires ValidatorsOk(c, s) && AllSentOk(c, s) && b in s.p.ord && v !in c.faulty
    requires OrderShareSent(s, v, b, cert.boothId, cert.digest)
    ensures HoldsBlock(c, s, v, b)
  {
    assert MsgOk(c, s, OPAReply(v, b, Share(v, cert.boothId, cert.digest)));
    assert v in s.vs && ValidatorOk(s, v, s.vs[v]);
  }

  /** What the instance announces for block b. */
  ghost predicate AnnouncesHash(s: System, i: InstId, b: BlockId, hash: Digest)
  {
    && i in s.p.metaHash && s.p.metaHash[i].OfRange?
    && b in s.p.metaHash[i].hashes && s.p.metaHash[i].hashes[b] == hash
  }

  ghost predicate CommittedByQuorum(c: Config, s: System, i: InstId)
  {
    && i in s.commitCerts && i in s.p.metaHash && i in s.p.dataBoo && s.commitCerts[i].digest == s.p.metaHash[i]
    && |s.commitCerts[i].signers| == GetThreshold(|s.p.dataBoo[i].indices|)
    && forall v :: v in s.commitCerts[i].signers && v !in c.faulty ==> v in s.p.dataBoo[i].indices && v != c.self
  }

  /**
   * A committed instance was signed by a quorum of its commit booth, two servers at least, and every block it
   * covers had been ordered by a quorum of that block's own booth, on the very hash the instance announces for it.
   */
  lemma EndToEndSafety(c: Config, s: System, i: InstId, b: BlockId)
    requires Reachable(c, s) && i in s.commitCerts && i in s.p.metaBids && b in s.p.metaBids[i]
    ensures CommittedByQuorum(c, s, i) && OrderedByQuorum(c, s, b) && AnnouncesHash(s, i, b, s.orderCerts[b].digest)
    ensures |s.commitCerts[i].signers| >= 2 && |s.orderCerts[b].signers| >= 2
  {
    ThresholdsAtLeastTwo(c, s);
    CommittedInstance(c, s, i);
    AnnouncedBlock(c, s, i, b);
    OrderedBlock(c, s, b);
  }

  lemma CommittedInstance(c: Config, s: System, i: InstId)
    requires Reachable(c, s) && i in s.commitCerts
    ensures CommittedByQuorum(c, s, i)
  {
    ReachableInv(c, s);
    TrafficMeans(c, s);
    var cert := s.commitCerts[i];
    assert CommitCertOk(s, i, cert);
    forall v | v in cert.signers && v !in c.faulty ensures v in s.p.dataBoo[i].indices && v != c.self {
      assert ConsensusShareSent(s, v, i, cert.boothId, cert.digest);
      assert MsgOk(c, s, CPAReply(v, i, Share(v, cert.boothId, cert.digest)));
    }
  }

  lemma AnnouncedBlock(c: Config, s: System, i: InstId, b: BlockId)
    requires Reachable(c, s) && i in s.p.metaBids && b in s.p.metaBids[i]
    ensures b in s.orderCerts && AnnouncesHash(s, i, b, s.orderCerts[b].digest)
  {
    ReachableInv(c, s);
    ProposerMeans(c, s);
    LedgerMeans(c, s);
    InstancesPartition(s.p, b);
    assert InInstance(s.p, i, b);
    InstancesMean(s.p);
    assert InstanceOk(s.p, i) && OrderCertOk(s, b, s.orderCerts[b]);
  }

  /** A correct validator commits only what has a commit certificate and what it signed itself. */
  lemma CommittedWasSigned(c: Config, s: System, v: ServerId, i: InstId)
    requires Reachable(c, s) && v in s.vs && i in s.vs[v].committed
    ensures i in s.commitCerts && i in s.p.metaHash && i in s.p.dataBoo && i in s.p.metaBids && s.p.metaBids[i] != []
    ensures v !in c.faulty && ConsensusShareSent(s, v, i, s.p.dataBoo[i].id, s.p.metaHash[i])
  {
    ReachableInv(c, s);
    ProposerMeans(c, s);
    LedgerMeans(c, s);
    TrafficMeans(c, s);
    assert ValidatorOk(s, v, s.vs[v]);
    InstanceHolds(c, s, i);
  }

  // ----- Each block in one instance -----

  /** A block is recorded once and only with a certificate, and its instance, if it has one, is unique. */
  lemma InstancesPartitionOrder(c: Config, s: System, b: BlockId)
    requires Reachable(c, s)
    ensures s.p.rec.Valid() && Distinct(s.p.rec.blockIDs) && (b in s.p.rec.blockIDs <==> b in s.orderCerts)
    ensures forall i, j :: InInstance(s.p, i, b) && InInstance(s.p, j, b) ==> i == j
    ensures b in s.orderCerts <==> b in s.p.rec.Unread() || exists i :: InInstance(s.p, i, b)
    ensures forall i :: InInstance(s.p, i, b) ==> b !in s.p.rec.Unread()
  {
    ReachableInv(c, s);
    ProposerMeans(c, s);
    LedgerMeans(c, s);
    InstancesPartition(s.p, b);
  }

  predicate InInstance(p: ProposerState, i: InstId, b: BlockId)
  {
    i in p.metaBids && b in p.metaBids[i]
  }

  /** The ranges of the instances and, last, what no instance has read. */
  ghost function Parts(p: ProposerState): seq<seq<BlockId>>
    requires p.rec.Valid()
  {
    InstanceRanges(p, p.consInstID) + [p.rec.Unread()]
  }

  lemma PartsAreAll(p: ProposerState)
    requires p.rec.Valid() && Flatten(InstanceRanges(p, p.consInstID)) == p.rec.blockIDs[..p.rec.lastIdx]
    ensures Flatten(Parts(p)) == p.rec.blockIDs
  {
    FlattenOneMore(InstanceRanges(p, p.consInstID), p.rec.Unread());
    assert p.rec.blockIDs[..p.rec.lastIdx] + p.rec.Unread() == p.rec.blockIDs;
  }

  lemma FlattenOneMore(parts: seq<seq<BlockId>>, last: seq<BlockId>)
    ensures Flatten(parts + [last]) == Flatten(parts) + last
  {
    assert (parts + [last])[..|parts|] == parts;
  }

  lemma RangesAreParts(p: ProposerState, b: BlockId)
    requires p.rec.Valid() && forall i: InstId :: i in p.metaBids <==> i < p.consInstID
    ensures forall i: InstId :: InInstance(p, i, b) <==> i < p.consInstID && b in Parts(p)[i]
    ensures |Parts(p)| == p.consInstID + 1 && Parts(p)[p.consInstID] == p.rec.Unread()
  {
  }

  lemma AllHaveRanges(p: ProposerState)
    requires InstancesOk(p)
    ensures forall i: InstId :: i in p.metaBids <==> i < p.consInstID
  {
    InstancesMean(p);
    forall i: InstId ensures i in p.metaBids <==> i in p.metaHash {
      assert i in p.metaHash ==> InstanceOk(p, i);
    }
  }

  lemma InstancesPartition(p: ProposerState, b: BlockId)
    requires p.rec.Valid() && InstancesOk(p) && Distinct(p.rec.blockIDs)
    ensures forall i, j :: InInstance(p, i, b) && InInstance(p, j, b) ==> i == j
    ensures b in p.rec.blockIDs <==> b in p.rec.Unread() || exists i :: InInstance(p, i, b)
    ensures forall i :: InInstance(p, i, b) ==> b !in p.rec.Unread()
  {
    InstancesMean(p);
    PartsAreAll(p);
    AllHaveRanges(p);
    RangesAreParts(p, b);
    FlattenOnce(Parts(p), b);
    PartsHaveOnce(p, Parts(p), p.consInstID, b);
  }

  lemma PartsHaveOnce(p: ProposerState, parts: seq<seq<BlockId>>, n: nat, b: BlockId)
    requires p.rec.Valid() && |parts| == n + 1 && parts[n] == p.rec.Unread()
    requires forall i: InstId :: InInstance(p, i, b) <==> i < n && b in parts[i]
    requires forall i, j :: InPart(parts, i, b) && InPart(parts, j, b) ==> i == j
    ensures forall i, j :: InInstance(p, i, b) && InInstance(p, j, b) ==> i == j
    ensures (exists i :: InPart(parts, i, b)) <==> b in p.rec.Unread() || exists i :: InInstance(p, i, b)
    ensures forall i :: InInstance(p, i, b) ==> b !in p.rec.Unread()
  {
    assert forall i: InstId :: InInstance(p, i, b) ==> InPart(parts, i, b) && i < n;
    if i: nat :| InPart(parts, i, b) {
      assert i < n ==> InInstance(p, i, b);
    }
    assert b in p.rec.Unread() ==> InPart(parts, n, b);
  }

  /** An instance covers each of its blocks once, and stores by booth name, in range order, their entries. */
  lemma InstanceContent(c: Config, s: System, i: InstId, name: string)
    requires Reachable(c, s) && i in s.p.metaHash
    ensures i in s.p.metaBids && i in s.p.dataTx && Distinct(s.p.metaBids[i])
    ensures var tx := s.p.dataTx[i];
            (if name in tx then tx[name] else []) == Named(s.p.ord, s.p.metaBids[i], name)
  {
    ReachableInv(c, s);
    InstanceHolds(c, s, i);
    ProposerMeans(c, s);
    LedgerMeans(c, s);
    RangeHasNames(s, s.p.metaBids[i]);
    StoredByName(s.p.ord, s.p.metaBids[i], name);
    RangeDistinct(s.p, i);
  }

  lemma RangeDistinct(p: ProposerState, i: InstId)
    requires InstancesOk(p) && Distinct(p.rec.blockIDs) && i in p.metaBids
    ensures Distinct(p.metaBids[i])
  {
    InstancesMean(p);
    PartsAreAll(p);
    assert Parts(p)[i] == p.metaBids[i];
    FlattenPartDistinct(Parts(p), i);
  }

  // ----- The second message of a phase goes where the first one went -----

  /** The booth looked up again for the OPB or the CPB message is the one its OPA or CPA message went to. */
  lemma BoothsFoundAgain(c: Config, s: System)
    requires InvOf(c, s, OfProposer)
    ensures forall b :: b in s.p.ord ==> BoothAt(s.p.reg, s.p.ord[b].booth.id) == s.p.ord[b].booth
    ensures forall i :: i in s.p.metaHash ==> BoothAt(s.p.reg, ResidingBooth(s.p, i).id) == ResidingBooth(s.p, i)
  {
    ProposerMeans(c, s);
    forall b | b in s.p.ord ensures BoothAt(s.p.reg, s.p.ord[b].booth.id) == s.p.ord[b].booth {
      assert BlockOk(s.p, b);
    }
    forall i | i in s.p.metaHash ensures BoothAt(s.p.reg, ResidingBooth(s.p, i).id) == ResidingBooth(s.p, i) {
      InstanceHolds(c, s, i);
    }
  }

  /** Member v was sent the block for ordering. */
  ghost predicate Asked(s: System, b: BlockId, v: ServerId)
  {
    b in s.p.ord && OPA(v, s.p.ord[b].booth, b, s.p.ord[b].entries, s.p.ord[b].hash) in s.sent
  }

  /** Member v was sent the instance. */
  ghost predicate Invited(s: System, i: InstId, v: ServerId)
  {
    exists e :: CPA(v, e) in s.sent && e.inst == i
  }

  ghost predicate AllAsked(c: Config, s: System, b: BlockId)
  {
    b in s.p.ord && forall v :: v in Recipients(c, s.p.ord[b].booth) ==> Asked(s, b, v)
  }

  ghost predicate AllInvited(c: Config, s: System, i: InstId)
  {
    forall v :: v in Recipients(c, ResidingBooth(s.p, i)) ==> Invited(s, i, v)
  }

  /** No member has been passed over. */
  ghost predicate Told(c: Config, s: System)
  {
    && (forall b :: b in s.p.ord ==> AllAsked(c, s, b))
    && (forall i :: i in s.p.metaHash ==> AllInvited(c, s, i))
  }

  lemma ToldKept(c: Config, s: System, s': System)
    requires Told(c, s) && s.sent <= s'.sent
    requires forall b :: b in s'.p.ord ==> (b in s.p.ord && SameBlock(s.p.ord[b], s'.p.ord[b])) || AllAsked(c, s', b)
    requires forall i :: i in s'.p.metaHash ==>
               (i in s.p.metaHash && ResidingBooth(s'.p, i) == ResidingBooth(s.p, i)) || AllInvited(c, s', i)
    ensures Told(c, s')
  {
    forall b | b in s'.p.ord ensures AllAsked(c, s', b) {
      if b in s.p.ord && SameBlock(s.p.ord[b], s'.p.ord[b]) {
        assert AllAsked(c, s, b);
        forall v | v in Recipients(c, s'.p.ord[b].booth) ensures Asked(s', b, v) {
          assert Asked(s, b, v);
        }
      }
    }
    forall i | i in s'.p.metaHash ensures AllInvited(c, s', i) {
      if i in s.p.metaHash && ResidingBooth(s'.p, i) == ResidingBooth(s.p, i) {
        assert AllInvited(c, s, i);
        forall v | v in Recipients(c, ResidingBooth(s'.p, i)) ensures Invited(s', i, v) {
          assert Invited(s, i, v);
        }
      }
    }
  }

  lemma ProposeTells(c: Config, s: System, s': System, booth: Booth, entries: Entries)
    requires Told(c, s) && NewBlock(c, s, s', booth, entries)
    ensures Told(c, s')
  {
    forall v | v in Recipients(c, booth) ensures Asked(s', s.p.logIndex, v) {
      assert OPA(v, booth, s.p.logIndex, entries, OfBlock(entries)) in Proposals(c, booth, s.p.logIndex, entries);
    }
    assert AllAsked(c, s', s.p.logIndex);
    ToldKept(c, s, s');
  }

  lemma StartTells(c: Config, s: System, s': System, booth: Booth, range: seq<BlockId>)
    requires Told(c, s) && Started(c, s, s', booth, range)
    ensures Told(c, s')
  {
    if range != [] {
      var a, i := AnnouncementOf(s.p, booth, range), s.p.consInstID;
      forall v | v in Recipients(c, booth) ensures Invited(s', i, v) {
        var e := EntryFor(a.entry, a.resent, a.newMembers, v);
        assert CPA(v, e) in Announcements(c, a) && e.inst == i;
      }
      assert AllInvited(c, s', i);
    }
    ToldKept(c, s, s');
  }

  lemma NextTells(c: Config, s: System, step: Step)
    requires Inv(c, s) && Enabled(c, s, step) && Told(c, s)
    ensures Told(c, Next(c, s, step))
  {
    InvSplits(c, s);
    match step {
      case ProposeBlock(vehicles, entries) =>
        ProposerMeans(c, s);
        ProposeShape(c, s, vehicles, entries);
        ProposeTells(c, s, Propose(c, s, vehicles, entries), ProposeStep(s.p, [c.self] + vehicles, entries).1, entries);
      case StartInstance(vehicles) =>
        var booth := StartIsStarted(c, s, vehicles);
        StartTells(c, s, Start(c, s, vehicles), booth, s.p.rec.Unread());
      case _ =>
        OthersTellNothing(c, s, step);
        ToldKept(c, s, Next(c, s, step));
    }
  }

  ghost predicate TellsNothing(s: System, s': System)
  {
    && s.sent <= s'.sent && s'.p.metaHash == s.p.metaHash && s'.p.dataBoo == s.p.dataBoo
    && forall b :: b in s'.p.ord ==> b in s.p.ord && SameBlock(s.p.ord[b], s'.p.ord[b])
  }

  lemma ReplyTellsNothing(s: System, id: BlockId, share: Share)
    ensures TellsNothing(s, TakeOrderReply(s, id, share))
  {
  }

  lemma OthersTellNothing(c: Config, s: System, step: Step)
    requires Enabled(c, s, step) && !step.ProposeBlock? && !step.StartInstance?
    ensures TellsNothing(s, Next(c, s, step))
  {
    if step.HandleOrderReply? {
      ReplyTellsNothing(s, step.orderReply.id, step.orderReply.share);
    }
  }

  lemma {:induction false} RunTells(c: Config, states: seq<System>, steps: seq<Step>, i: nat)
    requires IsRun(c, states, steps) && i < |states|
    ensures Told(c, states[i])
  {
    if i > 0 {
      RunTells(c, states, steps, i - 1);
      RunKeepsInv(c, states, steps, i - 1);
      NextTells(c, states[i - 1], steps[i - 1]);
    }
  }

  lemma ReachableTells(c: Config, s: System)
    requires Reachable(c, s)
    ensures Told(c, s)
  {
    var states: seq<System>, steps: seq<Step> :| IsRun(c, states, steps) && s in states;
    var i :| 0 <= i < |states| && states[i] == s;
    RunTells(c, states, steps, i);
  }

  /**
   * When the combined signature of a block is sent out, it is stored first, and it goes to exactly the
   * members that the block was sent to for ordering: those of its booth other than the proposer.
   */
  lemma OrderFollowsProposal(c: Config, s: System, b: BlockId, v: ServerId)
    requires Reachable(c, s) && b in s.orderCerts && b in s.p.ord
    ensures var s' := SendOrder(c, s, b);
            && b in s'.p.cmt && s'.p.cmt[b].tSig == Some(s.orderCerts[b])
            && (OPB(v, OrderOf(s, b)) in s'.sent <==> Asked(s, b, v))
            && (Asked(s, b, v) <==> v in s.p.ord[b].booth.indices && v != c.self)
  {
    ReachableInv(c, s);
    ReachableTells(c, s);
    BoothsFoundAgain(c, s);
    BlockHolds(c, s, b);
    TrafficMeans(c, s);
    assert AllAsked(c, s, b);
    if OPB(v, OrderOf(s, b)) in s.sent {
      MsgHolds(c, s, OPB(v, OrderOf(s, b)));
    }
  }

  /** The commit certificate goes to exactly the members that the instance was announced to. */
  lemma CommitFollowsAnnouncement(c: Config, s: System, i: InstId, cert: Cert, v: ServerId)
    requires Reachable(c, s) && i in s.p.metaHash
    ensures CPB(v, ResidingBooth(s.p, i), i, cert, s.p.metaHash[i]) in Commits(c, s.p, i, cert) <==> Invited(s, i, v)
    ensures Invited(s, i, v) <==> v in ResidingBooth(s.p, i).indices && v != c.self
  {
    ReachableInv(c, s);
    ReachableTells(c, s);
    BoothsFoundAgain(c, s);
    TrafficMeans(c, s);
    assert AllInvited(c, s, i);
    if e :| CPA(v, e) in s.sent && e.inst == i {
      MsgHolds(c, s, CPA(v, e));
    }
  }

  // ----- What a member holds after the second ordering phase -----

  ghost predicate HoldsSig(s: System, v: ServerId, b: BlockId)
  {
    var w := ValidatorOf(s, v);
    b in w.ord && b in w.cmt && w.cmt[b].tSig.Some?
  }

  /**
   * An OPB message for a block that its receiver was asked to order stores the proposer's certificate with the
   * block and changes nothing else; for any other block it changes nothing.
   */
  lemma OrderMessageExactly(c: Config, s: System, m: Msg)
    requires Reachable(c, s) && Enabled(c, s, Validate(m)) && m.OPB?
    ensures var b, v, v' := m.opb.id, ValidatorOf(s, m.to), ValidatorOf(Next(c, s, Validate(m)), m.to);
            && b in s.orderCerts
            && if b in v.ord then b in v.cmt && v' == v.(cmt := v.cmt[b := v.cmt[b].(tSig := Some(s.orderCerts[b]))])
               else v' == v
  {
    ReachableInv(c, s);
    LedgerMeans(c, s);
    MsgHolds(c, s, m);
    BeforeOk(c, s, m.to);
    assert OrderCertOk(s, m.opb.id, s.orderCerts[m.opb.id]);
  }

  lemma HandledKeepsSig(v: ValidatorState, m: Msg, b: BlockId)
    requires !m.OPAReply? && !m.CPAReply? && (m.CPB? ==> m.inst in v.tokens)
    requires b in v.ord && b in v.cmt && v.cmt[b].tSig.Some?
    ensures var v' := Handled(v, m).0; b in v'.ord && b in v'.cmt && v'.cmt[b].tSig.Some?
  {
    if m.CPA? {
      CatchUpKeeps(v, m.cpa.prev);
      CatchUpKeepsSig(v, m.cpa.prev, b);
    }
  }

  lemma NextKeepsSig(c: Config, s: System, step: Step, v: ServerId, b: BlockId)
    requires Enabled(c, s, step) && HoldsSig(s, v, b)
    ensures HoldsSig(Next(c, s, step), v, b)
  {
    if step.Validate? && step.m.to == v {
      HandledKeepsSig(ValidatorOf(s, v), step.m, b);
    }
  }

  lemma {:induction false} SigStays(c: Config, states: seq<System>, steps: seq<Step>, i: nat, j: nat, v: ServerId,
                                    b: BlockId)
    requires IsRun(c, states, steps) && i <= j < |states| && HoldsSig(states[i], v, b)
    ensures HoldsSig(states[j], v, b)
  {
    if i < j {
      SigStays(c, states, steps, i, j - 1, v, b);
      NextKeepsSig(c, states[j - 1], steps[j - 1], v, b);
    }
  }

  /**
   * Once a correct member has handled the OPB message of a block it was asked to order, it holds the proposer's
   * certificate of that block for the rest of the run.
   */
  lemma CertificateHeld(c: Config, states: seq<System>, steps: seq<Step>, i: nat, j: nat, m: Msg)
    requires IsRun(c, states, steps) && i < j < |states| && steps[i] == Validate(m) && m.OPB?
    requires m.opb.id in ValidatorOf(states[i], m.to).ord
    ensures var b, w := m.opb.id, ValidatorOf(states[j], m.to);
            && b in states[j].orderCerts && b in w.cmt && w.cmt[b].tSig == Some(states[j].orderCerts[b])
            && OrderCertOk(states[j], b, states[j].orderCerts[b])
  {
    assert states[i + 1] == Next(c, states[i], steps[i]);
    OrderMessageExactly(c, states[i], m);
    SigStays(c, states, steps, i + 1, j, m.to, m.opb.id);
    ReachableInv(c, states[j]);
    LedgerMeans(c, states[j]);
    BeforeOk(c, states[j], m.to);
  }

  // ----- Committed content -----

  /**
   * A correct validator signs what it is announced, unless a token of the instance has yet to be taken off its
   * job channel, and stores for the blocks it holds, under each booth name and in range order, what the
   * proposer's own entries give.
   */
  lemma ContentAgreement(c: Config, s: System, m: Msg)
    requires Reachable(c, s) && m in s.sent && m.CPA? && m.to !in c.faulty
    ensures var e := m.cpa;
            var (v', reply) := CAStep(ValidatorOf(s, m.to), m.to, e);
            && e.inst in s.p.dataTx && e.inst in v'.dataTx
            && reply == (if e.inst in ValidatorOf(s, m.to).tokens then None
                         else Some(Share(m.to, e.booth.id, e.totalHash)))
            && v'.dataTx[e.inst] == TxOf(s.p.ord, Held(v'.cmt, e.bids))
            && ((forall b :: b in e.bids ==> b in v'.cmt) ==> v'.dataTx[e.inst] == s.p.dataTx[e.inst])
  {
    ReachableInv(c, s);
    BeforeOk(c, s, m.to);
    MsgHolds(c, s, m);
    InstanceHolds(c, s, m.cpa.inst);
    ProposerMeans(c, s);
    CatchUpKeepsOk(s, m.to, ValidatorOf(s, m.to), m.cpa.prev);
    RangeHasNames(s, m.cpa.bids);
    CachesAgree(s, m.to, ValidatorOf(s, m.to), m.cpa);
  }

  lemma CachesAgree(s: System, me: ServerId, v: ValidatorState, e: CpaEntry)
    requires ValidatorOk(s, me, CatchUp(v, e.prev)) && InstanceOk(s.p, e.inst)
    requires e.bids == s.p.metaBids[e.inst] && e.rangeHash == HashesOf(s.p.ord, e.bids)
             && Instances.Complete(s.p.ord, e.bids)
    ensures var (v', reply) := CAStep(v, me, e);
            && e.inst in v'.dataTx
            && reply == (if e.inst in v.tokens then None else Some(Share(me, e.booth.id, e.totalHash)))
            && v'.dataTx[e.inst] == TxOf(s.p.ord, Held(v'.cmt, e.bids))
            && ((forall b :: b in e.bids ==> b in v'.cmt) ==> v'.dataTx[e.inst] == s.p.dataTx[e.inst])
  {
    var mine := CatchUp(v, e.prev).cmt;
    ScanMatches(mine, s.p.ord, e.rangeHash, e.bids);
    CAOutcome(v, me, e);
    if forall b :: b in e.bids ==> b in mine {
      AllHeld(mine, e.bids);
    }
  }

  lemma RangeHasNames(s: System, bids: seq<BlockId>)
    requires RegistryOk(s.p) && BlocksOk(s.p) && forall b :: b in bids ==> b in s.p.ord
    ensures Instances.Complete(s.p.ord, bids)
  {
    forall b | b in bids ensures s.p.ord[b].booth.indices != [] {
      assert BlockOk(s.p, b);
    }
  }

  // ----- Catch-up -----

  /** Member v was in the ordering booth, or its message carries the block as the proposer has it. */
  lemma CatchUpCarries(c: Config, s: System, m: Msg, b: BlockId)
    requires Reachable(c, s) && m in s.sent && m.CPA? && b in m.cpa.bids
    ensures b in s.p.ord
    ensures m.to in s.p.ord[b].booth.indices
            || exists r :: r in m.cpa.prev && r.id == b && r.hash == s.p.ord[b].hash && r.entries == s.p.ord[b].entries
                           && r.booth == s.p.ord[b].booth
                           && (r.combSig.Some? ==> b in s.orderCerts && r.combSig.value == s.orderCerts[b])
  {
    ReachableInv(c, s);
    ProposerMeans(c, s);
    LedgerMeans(c, s);
    TrafficMeans(c, s);
    assert MsgOk(c, s, m);
    assert Provided(s, m.to, m.cpa.prev, b);
    if m.to !in s.p.ord[b].booth.indices {
      var r :| r in m.cpa.prev && r.id == b;
      assert ResentOk(s, r);
    }
  }

  /** After the resend loop a covered block is held if and only if it was held before or came with a certificate. */
  lemma CatchUpHolds(c: Config, s: System, m: Msg, b: BlockId)
    requires Reachable(c, s) && m in s.sent && m.CPA? && m.to !in c.faulty
    ensures var v := ValidatorOf(s, m.to);
            b in CatchUp(v, m.cpa.prev).cmt <==>
            b in v.cmt || exists r :: r in m.cpa.prev && r.id == b && r.combSig.Some?
  {
    ReachableInv(c, s);
    ProposerMeans(c, s);
    LedgerMeans(c, s);
    TrafficMeans(c, s);
    var v := ValidatorOf(s, m.to);
    assert MsgOk(c, s, m) && ValidatorOk(s, m.to, v);
    CatchUpExactly(v, m.cpa.prev, b);
    forall r | r in m.cpa.prev && r.combSig.Some? ensures PenVerify(r.hash, r.combSig, r.booth.id) {
      assert ResentOk(s, r) && OrderCertOk(s, r.id, s.orderCerts[r.id]);
    }
  }

  // ----- What a consensus round sends -----

  /** The messages that a consensus round sends to each member, in terms of the blocks it covers. */
  lemma RoundSends(c: Config, s: System, vehicles: seq<ServerId>)
    requires Reachable(c, s) && s.p.rec.Valid() && s.p.rec.Unread() != []
    ensures var a := AnnouncementOf(s.p, CommitBooth(s.p, [c.self] + vehicles), s.p.rec.Unread());
            Start(c, s, vehicles).sent == s.sent + Announcements(c, a)
    ensures Instances.Complete(s.p.cmt, s.p.rec.Unread())
    ensures forall b :: b in s.p.rec.Unread() ==> b in s.p.ord && SameBlock(s.p.ord[b], s.p.cmt[b])
  {
    ReachableInv(c, s);
    InvJoins(c, s);
    RoundReady(c, s);
    var booth := StartIsStarted(c, s, vehicles);
    forall b | b in s.p.rec.Unread() ensures SameBlock(s.p.ord[b], s.p.cmt[b]) {
      BlockHolds(c, s, b);
    }
  }

  /** The one message of the round for member v. */
  ghost function EntryTo(c: Config, s: System, vehicles: seq<ServerId>, v: ServerId): CpaEntry
    requires s.p.rec.Valid()
  {
    var a := AnnouncementOf(s.p, CommitBooth(s.p, [c.self] + vehicles), s.p.rec.Unread());
    EntryFor(a.entry, a.resent, a.newMembers, v)
  }

  /**
   * Every member of the commit booth but the sender is sent exactly one message for the new instance. It
   * carries resent blocks if and only if the member is missing from the ordering booth of some covered block.
   */
  lemma OneMessagePerMember(c: Config, s: System, vehicles: seq<ServerId>, v: ServerId, e: CpaEntry)
    requires Reachable(c, s) && s.p.rec.Valid() && s.p.rec.Unread() != []
    ensures e.inst == s.p.consInstID ==>
              (CPA(v, e) in Start(c, s, vehicles).sent <==>
               v in Recipients(c, CommitBooth(s.p, [c.self] + vehicles)) && e == EntryTo(c, s, vehicles, v))
    ensures EntryTo(c, s, vehicles, v).inst == s.p.consInstID && EntryTo(c, s, vehicles, v).bids == s.p.rec.Unread()
    ensures v in CommitBooth(s.p, [c.self] + vehicles).indices ==>
              (EntryTo(c, s, vehicles, v).prev != [] <==>
               exists b :: b in s.p.rec.Unread() && b in s.p.ord && v !in s.p.ord[b].booth.indices)
  {
    RoundSends(c, s, vehicles);
    ReachableInv(c, s);
    var booth := CommitBooth(s.p, [c.self] + vehicles);
    if e.inst == s.p.consInstID {
      NewInstanceUnannounced(c, s, v, e);
    }
    if v in booth.indices {
      PrevExactly(s.p, booth, s.p.rec.Unread(), v);
    }
  }

  lemma NewInstanceUnannounced(c: Config, s: System, v: ServerId, e: CpaEntry)
    requires InvOf(c, s, OfProposer) && InvOf(c, s, OfTraffic) && e.inst == s.p.consInstID
    ensures CPA(v, e) !in s.sent
  {
    ProposerMeans(c, s);
    InstancesMean(s.p);
    if CPA(v, e) in s.sent {
      MsgHolds(c, s, CPA(v, e));
    }
  }

  lemma PrevExactly(p: ProposerState, booth: Booth, range: seq<BlockId>, v: ServerId)
    requires Instances.Complete(p.cmt, range) && v in booth.indices
    ensures var a := AnnouncementOf(p, booth, range);
            EntryFor(a.entry, a.resent, a.newMembers, v).prev != [] <==>
            exists b :: b in range && v !in p.cmt[b].booth.indices
  {
    CollectExactly(p.cmt, booth.indices, range);
    if b :| b in range && v !in p.cmt[b].booth.indices {
      assert SomeMissing(booth.indices, p.cmt[b].booth.indices);
      assert Resent(b, p.cmt[b]) in AnnouncementOf(p, booth, range).resent;
    }
  }

  /**
   * A member that missed a block's ordering holds the block after its resend loop if and only if it held it
   * already or the proposer had stored the combined signature when it collected the range. The block is
   * recorded before that (vordering.go:341, vordering.go:360-362), so it may not have.
   */
  lemma CatchUpExactlyWhenStored(c: Config, s: System, vehicles: seq<ServerId>, v: ServerId, b: BlockId,
                                 w: ValidatorState)
    requires Reachable(c, s) && s.p.rec.Valid() && b in s.p.rec.Unread() && w.ord.Keys <= w.cmt.Keys
    requires v in CommitBooth(s.p, [c.self] + vehicles).indices
    requires b in s.p.ord && b in s.p.cmt && v !in s.p.ord[b].booth.indices
    ensures b in CatchUp(w, EntryTo(c, s, vehicles, v).prev).cmt <==> b in w.cmt || s.p.cmt[b].tSig.Some?
  {
    RoundSends(c, s, vehicles);
    ReachableInv(c, s);
    LedgerMeans(c, s);
    var booth, prev := CommitBooth(s.p, [c.self] + vehicles), EntryTo(c, s, vehicles, v).prev;
    CatchUpExactly(w, prev, b);
    ResentOnce(s.p, booth, s.p.rec.Unread(), v, b);
    assert b in s.orderCerts && OrderCertOk(s, b, s.orderCerts[b]);
    var r := Resent(b, s.p.cmt[b]);
    assert r in prev && r.id == b;
    assert r.combSig.Some? ==> PenVerify(r.hash, r.combSig, r.booth.id);
  }

  /** A block that v missed is sent to it as it is cached. */
  lemma ResentOnce(p: ProposerState, booth: Booth, range: seq<BlockId>, v: ServerId, b: BlockId)
    requires Instances.Complete(p.cmt, range) && v in booth.indices && b in range && v !in p.cmt[b].booth.indices
    ensures var a := AnnouncementOf(p, booth, range);
            forall r :: r in EntryFor(a.entry, a.resent, a.newMembers, v).prev && r.id == b
                <==> r == Resent(b, p.cmt[b])
  {
    CollectExactly(p.cmt, booth.indices, range);
    assert SomeMissing(booth.indices, p.cmt[b].booth.indices);
  }
}
