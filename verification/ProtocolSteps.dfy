/** Every step of the protocol keeps its invariant. */
module ProtocolSteps {
  import opened Types
  import opened Signatures
  import opened IdRecorders
  import opened BoothRegistry
  import opened Instances
  import opened Proposers
  import opened Validators
  import opened Protocol

  // ----- Unfolding and folding the invariant -----

  lemma ProposerMeans(c: Config, s: System)
    requires InvOf(c, s, OfProposer)
    ensures RegistryOk(s.p) && BlocksOk(s.p) && InstancesOk(s.p)
  {
    assert Holds(c, s, TheRegistry) && Holds(c, s, TheBlocks) && Holds(c, s, TheInstances);
  }

  lemma LedgerMeans(c: Config, s: System)
    requires InvOf(c, s, OfLedger)
    ensures CertsOk(s) && RecordOk(s)
  {
    assert Holds(c, s, TheCerts) && Holds(c, s, TheRecord);
  }

  lemma TrafficMeans(c: Config, s: System)
    requires InvOf(c, s, OfTraffic)
    ensures SharesOk(s) && ValidatorsOk(c, s) && AllSentOk(c, s)
  {
    assert Holds(c, s, TheShares) && Holds(c, s, TheValidators) && Holds(c, s, TheMessages);
  }

  lemma InvSplits(c: Config, s: System)
    requires Inv(c, s)
    ensures InvOf(c, s, OfProposer) && InvOf(c, s, OfLedger) && InvOf(c, s, OfTraffic)
  {
  }

  lemma InvJoins(c: Config, s: System)
    requires InvOf(c, s, OfProposer) && InvOf(c, s, OfLedger) && InvOf(c, s, OfTraffic)
    ensures Inv(c, s)
  {
    ProposerMeans(c, s);
    LedgerMeans(c, s);
    TrafficMeans(c, s);
  }

  lemma ProposerFolds(c: Config, s: System)
    requires RegistryOk(s.p) && BlocksOk(s.p) && InstancesOk(s.p)
    ensures InvOf(c, s, OfProposer)
  {
  }

  lemma LedgerFolds(c: Config, s: System)
    requires CertsOk(s) && RecordOk(s)
    ensures InvOf(c, s, OfLedger)
  {
  }

  lemma TrafficFolds(c: Config, s: System)
    requires SharesOk(s) && ValidatorsOk(c, s) && AllSentOk(c, s)
    ensures InvOf(c, s, OfTraffic)
  {
  }

  lemma BlockHolds(c: Config, s: System, id: BlockId)
    requires InvOf(c, s, OfProposer) && id in s.p.ord
    ensures BlockOk(s.p, id)
  {
    ProposerMeans(c, s);
  }

  lemma InstanceHolds(c: Config, s: System, i: InstId)
    requires InvOf(c, s, OfProposer) && i in s.p.metaHash
    ensures InstanceOk(s.p, i)
  {
    ProposerMeans(c, s);
    InstancesMean(s.p);
  }

  lemma MsgHolds(c: Config, s: System, m: Msg)
    requires InvOf(c, s, OfTraffic) && m in s.sent
    ensures MsgOk(c, s, m)
  {
    TrafficMeans(c, s);
  }

  // ----- Parts of the invariant that survive growth -----

  /** Blocks are added, the recorder and the registry grow, the instances stay. */
  ghost predicate ProposerGrows(p: ProposerState, p': ProposerState)
  {
    && p.reg.b <= p'.reg.b && p.logIndex <= p'.logIndex
    && (forall id :: id in p.ord ==> id in p'.ord && SameBlock(p.ord[id], p'.ord[id]))
    && p.rec.blockIDs <= p'.rec.blockIDs && p'.rec.lastIdx == p.rec.lastIdx
    && p'.consInstID == p.consInstID && p'.metaHash == p.metaHash && p'.metaBids == p.metaBids
    && p'.dataTx == p.dataTx && p'.dataBoo == p.dataBoo
  }

  lemma InstanceStable(p: ProposerState, p': ProposerState, i: InstId)
    requires InstanceOk(p, i) && p.reg.b <= p'.reg.b
    requires forall id :: id in p.ord ==> id in p'.ord && SameBlock(p.ord[id], p'.ord[id])
    requires i in p'.metaHash && p'.metaHash[i] == p.metaHash[i] && i in p'.metaBids && p'.metaBids[i] == p.metaBids[i]
    requires i in p'.dataBoo && p'.dataBoo[i] == p.dataBoo[i] && i in p'.dataTx && p'.dataTx[i] == p.dataTx[i]
    ensures InstanceOk(p', i)
  {
    var bids := p.metaBids[i];
    TxOfStable(p.ord, p'.ord, bids);
    assert HashesOf(p'.ord, bids) == HashesOf(p.ord, bids);
  }

  /** A recorder that grows keeps what has been read of it. */
  lemma ReadPartStays(r: Recorder, r': Recorder)
    requires r.Valid() && r.blockIDs <= r'.blockIDs && r'.lastIdx == r.lastIdx
    ensures r'.Valid() && r'.blockIDs[..r'.lastIdx] == r.blockIDs[..r.lastIdx]
  {
  }

  lemma AllInstancesStable(p: ProposerState, p': ProposerState)
    requires ProposerGrows(p, p') && forall i :: i in p.metaHash ==> InstanceOk(p, i)
    ensures forall i :: i in p'.metaHash ==> InstanceOk(p', i)
  {
    forall i | i in p'.metaHash ensures InstanceOk(p', i) {
      assert InstanceOk(p, i);
      InstanceStable(p, p', i);
    }
  }

  lemma InstancesStable(p: ProposerState, p': ProposerState)
    requires InstancesOk(p) && ProposerGrows(p, p')
    ensures InstancesOk(p')
  {
    InstancesMean(p);
    AllInstancesStable(p, p');
    SameRanges(p, p', p.consInstID);
    ReadPartStays(p.rec, p'.rec);
    InstancesAre(p');
  }

  lemma SameRanges(p: ProposerState, p': ProposerState, n: nat)
    requires p'.metaBids == p.metaBids
    ensures InstanceRanges(p', n) == InstanceRanges(p, n)
  {
  }

  lemma SharesStable(s: System, s': System)
    requires SharesOk(s) && Extends(s, s')
    requires s'.p.metaSigs == s.p.metaSigs && s'.locals == s.locals && s'.commitCerts == s.commitCerts
    ensures SharesOk(s')
  {
    ExtendsMeans(s, s');
    CommitCertsStable(s, s');
  }

  lemma ValidatorsUnchanged(c: Config, s: System, s': System)
    requires ValidatorsOk(c, s) && Extends(s, s') && s'.vs == s.vs
    ensures ValidatorsOk(c, s')
  {
    ExtendsMeans(s, s');
    ValidatorsStable(c, s, s');
  }

  lemma SentGrows(c: Config, s: System, s': System, added: set<Msg>)
    requires AllSentOk(c, s) && Extends(s, s') && s'.sent == s.sent + added
    requires forall m :: m in added ==> MsgOk(c, s, m) || MsgOk(c, s', m)
    ensures AllSentOk(c, s')
  {
    forall m | m in s'.sent ensures MsgOk(c, s', m) {
      if MsgOk(c, s, m) {
        MsgStable(c, s, s', m);
      }
    }
  }

  lemma LookupBooth(p: ProposerState, pattern: seq<ServerId>)
    requires RegistryOk(p) && pattern != []
    ensures var (reg, id) := Lookup(p.reg, pattern);
            && RegistryOk(p.(reg := reg)) && p.reg.b <= reg.b && id < |reg.b| && BoothAt(reg, id) == reg.b[id]
            && reg.b[id].id == id && reg.b[id].indices != []
  {
    var members := SortInts(pattern);
    assert |multiset(members)| == |multiset(pattern)| && |members| == |multiset(members)|
           && |pattern| == |multiset(pattern)|;
    EnterStable(p.reg, members);
  }

  lemma CertsStable(s: System, s': System)
    requires CertsOk(s) && Extends(s, s') && s'.orderCerts == s.orderCerts
    requires forall id :: id in s'.p.ord ==>
               s'.p.ord[id].sigs == [] || (id in s.p.ord && s'.p.ord[id].sigs == s.p.ord[id].sigs)
    requires forall id :: id in s'.p.cmt && s'.p.cmt[id].tSig.Some? ==>
               id in s.orderCerts && s'.p.cmt[id].tSig.value == s.orderCerts[id]
    ensures CertsOk(s')
  {
    ExtendsMeans(s, s');
    OrderCertsStable(s, s');
  }

  lemma RecordStable(s: System, s': System)
    requires RecordOk(s) && Extends(s, s') && s'.orderCerts == s.orderCerts && s'.p.rec.blockIDs == s.p.rec.blockIDs
    requires forall id :: id in s.p.ord ==> id in s'.p.ord && s'.p.ord[id].sigs == s.p.ord[id].sigs
    ensures RecordOk(s')
  {
    ExtendsMeans(s, s');
  }

  lemma LedgerKept(c: Config, s: System, s': System)
    requires InvOf(c, s, OfLedger) && Extends(s, s') && s'.orderCerts == s.orderCerts
    requires s'.p.ord == s.p.ord && s'.p.cmt == s.p.cmt && s'.p.rec.blockIDs == s.p.rec.blockIDs
    ensures InvOf(c, s', OfLedger)
  {
    LedgerMeans(c, s);
    CertsStable(s, s');
    RecordStable(s, s');
    LedgerFolds(c, s');
  }

  lemma TrafficKept(c: Config, s: System, s': System, added: set<Msg>)
    requires InvOf(c, s, OfTraffic) && Extends(s, s') && s'.vs == s.vs && s'.sent == s.sent + added
    requires s'.p.metaSigs == s.p.metaSigs && s'.locals == s.locals && s'.commitCerts == s.commitCerts
    requires forall m :: m in added ==> MsgOk(c, s, m) || MsgOk(c, s', m)
    ensures InvOf(c, s', OfTraffic)
  {
    TrafficMeans(c, s);
    SharesStable(s, s');
    ValidatorsUnchanged(c, s, s');
    SentGrows(c, s, s', added);
    TrafficFolds(c, s');
  }

  /** A step that leaves the proposer's caches and the certificates alone keeps what holds of them. */
  lemma OnlyTraffic(c: Config, s: System, s': System)
    requires Inv(c, s) && Extends(s, s') && s'.p == s.p && s'.orderCerts == s.orderCerts && InvOf(c, s', OfTraffic)
    ensures Inv(c, s')
  {
    InvSplits(c, s);
    LedgerKept(c, s, s');
    SameProposer(c, s, s');
    InvJoins(c, s');
  }

  lemma SameProposer(c: Config, s: System, s': System)
    requires InvOf(c, s, OfProposer) && s'.p == s.p
    ensures InvOf(c, s', OfProposer)
  {
    ProposerMeans(c, s);
    ProposerFolds(c, s');
  }

  // ----- The proposer's steps -----

  lemma NextBlockIsNew(p: ProposerState)
    requires BlocksOk(p)
    ensures p.logIndex !in p.ord && p.logIndex !in p.cmt
  {
    assert forall id :: id in p.ord ==> BlockOk(p, id);
  }

  /** A snapshot taken under an unused block ID. */
  ghost predicate Takes(p: ProposerState, p': ProposerState, id: BlockId, snapshot: Snapshot)
  {
    p'.ord == p.ord[id := snapshot] && p'.cmt == p.cmt[id := snapshot]
  }

  lemma ProposeBlocks(p: ProposerState, p': ProposerState, id: BlockId, snapshot: Snapshot)
    requires BlocksOk(p) && id !in p.ord && Takes(p, p', id, snapshot) && p.reg.b <= p'.reg.b
             && p.logIndex <= p'.logIndex
    requires id < p'.logIndex && snapshot.hash == OfBlock(snapshot.entries) && snapshot.sigs == []
    requires snapshot.booth.id < |p'.reg.b| && p'.reg.b[snapshot.booth.id] == snapshot.booth
    ensures BlocksOk(p')
  {
    forall b | b in p'.ord ensures BlockOk(p', b) {
      if b != id {
        assert BlockOk(p, b);
      }
    }
  }

  lemma ProposeCerts(s: System, s': System, id: BlockId, snapshot: Snapshot)
    requires CertsOk(s) && Extends(s, s') && s'.orderCerts == s.orderCerts
    requires Takes(s.p, s'.p, id, snapshot) && snapshot.sigs == [] && snapshot.tSig == None
    ensures CertsOk(s')
  {
    CertsStable(s, s');
  }

  lemma ProposalsOk(c: Config, s: System, booth: Booth, id: BlockId, entries: Entries)
    requires id in s.p.ord && s.p.ord[id] == Snapshot(OfBlock(entries), entries, [], None, booth)
    ensures forall m :: m in Proposals(c, booth, id, entries) ==> MsgOk(c, s, m)
  {
  }

  /** A new block under the next ID, in a booth of the registry, is proposed to the other members. */
  ghost predicate NewBlock(c: Config, s: System, s': System, booth: Booth, entries: Entries)
  {
    && RegistryOk(s'.p) && s.p.reg.b <= s'.p.reg.b && booth.id < |s'.p.reg.b| && s'.p.reg.b[booth.id] == booth
    && Takes(s.p, s'.p, s.p.logIndex, Snapshot(OfBlock(entries), entries, [], None, booth))
    && s' == s.(p := s.p.(reg := s'.p.reg, logIndex := s.p.logIndex + 1, ord := s'.p.ord, cmt := s'.p.cmt),
                sent := s.sent + Proposals(c, booth, s.p.logIndex, entries))
  }

  lemma ProposeShape(c: Config, s: System, vehicles: seq<ServerId>, entries: Entries)
    requires RegistryOk(s.p)
    ensures NewBlock(c, s, Propose(c, s, vehicles, entries), ProposeStep(s.p, [c.self] + vehicles, entries).1, entries)
  {
    LookupBooth(s.p, [c.self] + vehicles);
  }

  lemma ProposeExtends(c: Config, s: System, s': System, booth: Booth, entries: Entries)
    requires NewBlock(c, s, s', booth, entries) && s.p.logIndex !in s.p.ord
    ensures ProposerGrows(s.p, s'.p) && Extends(s, s')
  {
    ProposerExtends(s, s');
  }

  lemma ProposeGrows(c: Config, s: System, s': System, booth: Booth, entries: Entries)
    requires InvOf(c, s, OfProposer) && NewBlock(c, s, s', booth, entries)
    ensures s.p.logIndex !in s.p.ord && Extends(s, s') && InvOf(c, s', OfProposer)
  {
    ProposerMeans(c, s);
    NextBlockIsNew(s.p);
    ProposeBlocks(s.p, s'.p, s.p.logIndex, Snapshot(OfBlock(entries), entries, [], None, booth));
    ProposeExtends(c, s, s', booth, entries);
    InstancesStable(s.p, s'.p);
    ProposerFolds(c, s');
  }

  lemma ProposeLedger(c: Config, s: System, s': System, booth: Booth, entries: Entries)
    requires InvOf(c, s, OfLedger) && NewBlock(c, s, s', booth, entries) && s.p.logIndex !in s.p.ord && Extends(s, s')
    ensures InvOf(c, s', OfLedger)
  {
    LedgerMeans(c, s);
    ProposeCerts(s, s', s.p.logIndex, Snapshot(OfBlock(entries), entries, [], None, booth));
    RecordStable(s, s');
    LedgerFolds(c, s');
  }

  lemma ProposeMoves(c: Config, s: System, s': System, booth: Booth, entries: Entries)
    requires Inv(c, s) && NewBlock(c, s, s', booth, entries)
    ensures Inv(c, s')
  {
    InvSplits(c, s);
    ProposeGrows(c, s, s', booth, entries);
    ProposeLedger(c, s, s', booth, entries);
    ProposalsOk(c, s', booth, s.p.logIndex, entries);
    TrafficKept(c, s, s', Proposals(c, booth, s.p.logIndex, entries));
    InvJoins(c, s');
  }

  lemma ProposeKeepsInv(c: Config, s: System, vehicles: seq<ServerId>, entries: Entries)
    requires Inv(c, s)
    ensures Inv(c, Propose(c, s, vehicles, entries))
  {
    InvSplits(c, s);
    ProposerMeans(c, s);
    ProposeShape(c, s, vehicles, entries);
    ProposeMoves(c, s, Propose(c, s, vehicles, entries), ProposeStep(s.p, [c.self] + vehicles, entries).1, entries);
  }

  lemma StoreSigBlocks(p: ProposerState, id: BlockId, cert: Cert)
    requires BlocksOk(p) && id in p.ord
    ensures BlocksOk(StoreSigStep(p, id, cert)) && ProposerGrows(p, StoreSigStep(p, id, cert))
  {
    assert BlockOk(p, id);
    var p' := StoreSigStep(p, id, cert);
    forall b | b in p'.ord ensures BlockOk(p', b) {
      assert BlockOk(p, b);
    }
  }

  /** Enough of how the proposer changes for what is known to stay known. */
  lemma ProposerExtends(s: System, s': System)
    requires ProposerGrows(s.p, s'.p) && s.sent <= s'.sent && s'.vs == s.vs && s'.commitCerts == s.commitCerts
    requires forall id :: id in s.orderCerts ==> id in s'.orderCerts && s'.orderCerts[id] == s.orderCerts[id]
    ensures Extends(s, s')
  {
    forall f | Known(s, f) ensures Known(s', f) {
      match f {
        case Proposed(id, hash, entries, booth) => assert SameBlock(s.p.ord[id], s'.p.ord[id]);
        case _ =>
      }
    }
  }

  lemma StoreSigGrows(c: Config, s: System, s': System, id: BlockId)
    requires InvOf(c, s, OfProposer) && id in s.orderCerts && id in s.p.ord && Stored(c, s, s', id)
    ensures Extends(s, s') && InvOf(c, s', OfProposer)
  {
    ProposerMeans(c, s);
    StoreSigBlocks(s.p, id, s.orderCerts[id]);
    ProposerExtends(s, s');
    InstancesStable(s.p, s'.p);
    ProposerFolds(c, s');
  }

  ghost predicate Stored(c: Config, s: System, s': System, id: BlockId)
    requires id in s.orderCerts && id in s.p.ord
  {
    && s'.p == StoreSigStep(s.p, id, s.orderCerts[id]) && s'.vs == s.vs && s'.orderCerts == s.orderCerts
    && s'.commitCerts == s.commitCerts && s'.locals == s.locals
    && s'.sent == s.sent + Orders(c, BoothAt(s.p.reg, s.p.ord[id].booth.id), OrderOf(s, id))
  }

  lemma StoreSigCerts(s: System, s': System, id: BlockId)
    requires CertsOk(s) && id in s.orderCerts && Extends(s, s') && s'.orderCerts == s.orderCerts && s'.p.ord == s.p.ord
    requires s'.p.cmt == StoreSigStep(s.p, id, s.orderCerts[id]).cmt
    ensures CertsOk(s')
  {
    forall b | b in s'.p.cmt && s'.p.cmt[b].tSig.Some?
      ensures b in s.orderCerts && s'.p.cmt[b].tSig.value == s.orderCerts[b] {
      assert b != id ==> b in s.p.cmt && s'.p.cmt[b] == s.p.cmt[b];
    }
    CertsStable(s, s');
  }

  lemma StoreSigLedger(c: Config, s: System, s': System, id: BlockId)
    requires InvOf(c, s, OfLedger) && id in s.orderCerts && id in s.p.ord && Stored(c, s, s', id) && Extends(s, s')
    ensures InvOf(c, s', OfLedger)
  {
    LedgerMeans(c, s);
    StoreSigCerts(s, s', id);
    RecordStable(s, s');
    LedgerFolds(c, s');
  }

  lemma OrdersOk(c: Config, s: System, id: BlockId)
    requires id in s.orderCerts && id in s.p.ord && BlockOk(s.p, id)
    ensures forall m :: m in Orders(c, BoothAt(s.p.reg, s.p.ord[id].booth.id), OrderOf(s, id)) ==> MsgOk(c, s, m)
  {
  }

  lemma StoreSigMoves(c: Config, s: System, s': System, id: BlockId)
    requires Inv(c, s) && id in s.orderCerts && id in s.p.ord && Stored(c, s, s', id)
    ensures Inv(c, s')
  {
    InvSplits(c, s);
    StoreSigGrows(c, s, s', id);
    StoreSigLedger(c, s, s', id);
    BlockHolds(c, s, id);
    OrdersOk(c, s, id);
    TrafficKept(c, s, s', Orders(c, BoothAt(s.p.reg, s.p.ord[id].booth.id), OrderOf(s, id)));
    InvJoins(c, s');
  }

  lemma StoreSigKeepsInv(c: Config, s: System, id: BlockId)
    requires Inv(c, s) && id in s.orderCerts && id in s.p.ord
    ensures Inv(c, SendOrder(c, s, id))
  {
    StoreSigMoves(c, s, SendOrder(c, s, id), id);
  }

  /** A consensus reply has been read in; nothing else changes. */
  ghost predicate Reads(s: System, s': System, m: Msg)
    requires m.CPAReply?
  {
    && Extends(s, s') && s'.p == s.p && s'.vs == s.vs && s'.orderCerts == s.orderCerts
    && s'.commitCerts == s.commitCerts
    && s'.sent == s.sent
    && var local := ReadSharesStep(s.p, m.inst);
       s'.locals == if local.None? then s.locals else s.locals + {Local(m.inst, local.value, m.share)}
  }

  lemma ReadShape(s: System, m: Msg)
    requires m.CPAReply?
    ensures Reads(s, Read(s, m.inst, m.share), m)
  {
  }

  lemma ReadTraffic(c: Config, s: System, s': System, m: Msg)
    requires InvOf(c, s, OfTraffic) && m in s.sent && m.CPAReply? && Reads(s, s', m)
    ensures InvOf(c, s', OfTraffic)
  {
    MsgHolds(c, s, m);
    TrafficMeans(c, s);
    ReadKeepsShares(s, s', m);
    ValidatorsUnchanged(c, s, s');
    SentGrows(c, s, s', {});
    TrafficFolds(c, s');
  }

  lemma ReadKeepsInv(c: Config, s: System, m: Msg)
    requires Inv(c, s) && m in s.sent && m.CPAReply?
    ensures Inv(c, Read(s, m.inst, m.share))
  {
    InvSplits(c, s);
    ReadShape(s, m);
    ReadTraffic(c, s, Read(s, m.inst, m.share), m);
    OnlyTraffic(c, s, Read(s, m.inst, m.share));
  }

  lemma ReadKeepsShares(s: System, s': System, m: Msg)
    requires SharesOk(s) && m in s.sent && m.CPAReply? && m.share.signer == m.from && Reads(s, s', m)
    ensures SharesOk(s')
  {
    ExtendsMeans(s, s');
    CommitCertsStable(s, s');
  }

  /** What the write-back section recovers is a commit certificate. */
  lemma WriteRecovers(s: System, l: Local)
    requires SharesOk(s) && l in s.locals && l.inst in s.p.metaHash && l.inst in s.p.dataBoo
    ensures var cert := WriteSharesStep(s.p, l.inst, l.shares, l.mine).1;
            cert.Some? ==> CommitCertOk(s, l.inst, cert.value)
  {
    var sigs := l.shares + [l.mine];
    var i, booth := l.inst, s.p.dataBoo[l.inst];
    var cert := WriteSharesStep(s.p, i, l.shares, l.mine).1;
    if cert.Some? {
      RecoveredQuorum(sigs, s.p.metaHash[i], booth.id, |booth.indices|);
      forall v | v in cert.value.signers ensures ConsensusShareSent(s, v, i, booth.id, s.p.metaHash[i]) {
        assert Share(v, booth.id, s.p.metaHash[i]) in sigs;
      }
    }
  }

  lemma WriteKeepsShares(s: System, s': System, l: Local)
    requires SharesOk(s) && Extends(s, s') && l in s.locals && l.inst in s.p.metaHash && l.inst in s.p.dataBoo
    requires s'.locals == s.locals && s'.p.metaSigs == s.p.metaSigs[l.inst := l.shares + [l.mine]]
    requires var cert := WriteSharesStep(s.p, l.inst, l.shares, l.mine).1;
             s'.commitCerts == if cert.Some? then s.commitCerts[l.inst := cert.value] else s.commitCerts
    ensures SharesOk(s')
  {
    ExtendsMeans(s, s');
    CommitCertsStable(s, s');
    WriteRecovers(s, l);
    var cert := WriteSharesStep(s.p, l.inst, l.shares, l.mine).1;
    if cert.Some? {
      CommitCertStable(s, s', l.inst, cert.value);
    }
  }

  lemma SharesAside(s: System, s': System)
    requires s'.p == s.p.(metaSigs := s'.p.metaSigs) && s.sent <= s'.sent && s'.vs == s.vs
             && s'.orderCerts == s.orderCerts
    requires s.commitCerts.Keys <= s'.commitCerts.Keys
    ensures Extends(s, s')
  {
  }

  lemma WriteExtends(c: Config, s: System, l: Local)
    requires l.inst in s.p.metaHash
    ensures Wrote(c, s, Write(c, s, l), l)
  {
    SharesAside(s, Write(c, s, l));
  }

  ghost predicate Wrote(c: Config, s: System, s': System, l: Local)
    requires l.inst in s.p.metaHash
  {
    && Extends(s, s') && s'.vs == s.vs && s'.orderCerts == s.orderCerts && s'.locals == s.locals
    && s'.p == s.p.(metaSigs := s.p.metaSigs[l.inst := l.shares + [l.mine]])
    && var cert := WriteSharesStep(s.p, l.inst, l.shares, l.mine).1;
       && s'.commitCerts == (if cert.Some? then s.commitCerts[l.inst := cert.value] else s.commitCerts)
       && s'.sent == s.sent + if cert.Some? then Commits(c, s.p, l.inst, cert.value) else {}
  }

  lemma SharesAsideGrows(p: ProposerState, p': ProposerState)
    requires p' == p.(metaSigs := p'.metaSigs)
    ensures ProposerGrows(p, p')
  {
  }

  lemma SharesAsideKept(p: ProposerState, p': ProposerState)
    requires RegistryOk(p) && BlocksOk(p) && InstancesOk(p) && p' == p.(metaSigs := p'.metaSigs)
    ensures RegistryOk(p') && BlocksOk(p') && InstancesOk(p')
  {
    SharesAsideGrows(p, p');
    SameBlocks(p, p');
    InstancesStable(p, p');
  }

  lemma WriteGrows(c: Config, s: System, s': System, l: Local)
    requires InvOf(c, s, OfProposer) && l.inst in s.p.metaHash && Wrote(c, s, s', l)
    ensures InvOf(c, s', OfProposer)
  {
    ProposerMeans(c, s);
    SharesAsideKept(s.p, s'.p);
    ProposerFolds(c, s');
  }

  lemma WriteTraffic(c: Config, s: System, s': System, l: Local)
    requires InvOf(c, s, OfTraffic) && l in s.locals && l.inst in s.p.metaHash && InstanceOk(s.p, l.inst)
             && Wrote(c, s, s', l)
    ensures InvOf(c, s', OfTraffic)
  {
    TrafficMeans(c, s);
    WriteKeepsShares(s, s', l);
    ValidatorsUnchanged(c, s, s');
    var cert := WriteSharesStep(s.p, l.inst, l.shares, l.mine).1;
    if cert.Some? {
      WriteRecovers(s, l);
      WriteMessages(c, s, s', l, cert.value);
    } else {
      SentGrows(c, s, s', {});
    }
    TrafficFolds(c, s');
  }

  lemma WriteMessages(c: Config, s: System, s': System, l: Local, cert: Cert)
    requires AllSentOk(c, s) && CommitCertOk(s, l.inst, cert) && InstanceOk(s.p, l.inst) && Extends(s, s')
    requires s'.sent == s.sent + Commits(c, s.p, l.inst, cert) && l.inst in s'.commitCerts
    ensures AllSentOk(c, s')
  {
    forall m | m in Commits(c, s.p, l.inst, cert) ensures MsgOk(c, s', m) {
      CommitCertStable(s, s', l.inst, cert);
      ExtendsMeans(s, s');
    }
    SentGrows(c, s, s', Commits(c, s.p, l.inst, cert));
  }

  lemma WriteMoves(c: Config, s: System, s': System, l: Local)
    requires Inv(c, s) && l in s.locals && l.inst in s.p.metaHash && Wrote(c, s, s', l)
    ensures Inv(c, s')
  {
    InvSplits(c, s);
    WriteGrows(c, s, s', l);
    LedgerKept(c, s, s');
    InstanceHolds(c, s, l.inst);
    WriteTraffic(c, s, s', l);
    InvJoins(c, s');
  }

  lemma WriteKeepsInv(c: Config, s: System, l: Local)
    requires Inv(c, s) && l in s.locals && l.inst in s.p.metaHash
    ensures Inv(c, Write(c, s, l))
  {
    WriteExtends(c, s, l);
    WriteMoves(c, s, Write(c, s, l), l);
  }

  lemma SameBlocks(p: ProposerState, p': ProposerState)
    requires BlocksOk(p) && p'.ord == p.ord && p'.cmt == p.cmt && p'.logIndex == p.logIndex && p.reg.b <= p'.reg.b
    ensures BlocksOk(p')
  {
    forall b | b in p'.ord ensures BlockOk(p', b) {
      assert BlockOk(p, b);
    }
  }

  ghost predicate Open(p: ProposerState, id: BlockId)
  {
    id in p.ord && |p.ord[id].sigs| != GetThreshold(|p.ord[id].booth.indices|)
  }

  /** The share is appended. */
  ghost predicate Appends(p: ProposerState, p': ProposerState, id: BlockId, share: Share)
  {
    id in p.ord && p'.ord == p.ord[id := p.ord[id].(sigs := p.ord[id].sigs + [share])] && p'.cmt == p.cmt
  }

  lemma OrderReplyBlocks(p: ProposerState, p': ProposerState, id: BlockId, share: Share)
    requires BlocksOk(p) && Open(p, id) && Appends(p, p', id, share) && p'.reg == p.reg && p'.logIndex == p.logIndex
    ensures BlocksOk(p')
  {
    assert BlockOk(p, id);
    forall b | b in p'.ord ensures BlockOk(p', b) {
      assert BlockOk(p, b);
    }
  }

  /** When the appended share completes the list and the shares recover, the block is certified and recorded. */
  ghost predicate Certifies(s: System, s': System, id: BlockId, cert: Option<Cert>)
    requires id in s'.p.ord
  {
    var f := s'.p.ord[id];
    && (cert.Some? ==> cert == PenRecovery(f.sigs, f.hash, f.booth.id, |f.booth.indices|))
    && s'.orderCerts == (if cert.Some? then s.orderCerts[id := cert.value] else s.orderCerts)
    && s'.p.rec.blockIDs == (if cert.Some? then s.p.rec.blockIDs + [id] else s.p.rec.blockIDs)
  }

  ghost predicate Replied(s: System, s': System, id: BlockId, share: Share, cert: Option<Cert>)
  {
    && Appends(s.p, s'.p, id, share) && Certifies(s, s', id, cert) && s'.p.rec.lastIdx == s.p.rec.lastIdx
    && s' == s.(p := s.p.(ord := s'.p.ord, rec := s'.p.rec), orderCerts := s'.orderCerts)
  }

  lemma OrderReplyShape(s: System, id: BlockId, share: Share)
    requires Open(s.p, id)
    ensures Replied(s, TakeOrderReply(s, id, share), id, share, OrderReplyStep(s.p, id, share).1)
  {
  }

  lemma OrderReplyExtends(s: System, s': System, id: BlockId, share: Share, cert: Option<Cert>)
    requires Replied(s, s', id, share, cert) && id !in s.orderCerts
    ensures ProposerGrows(s.p, s'.p) && Extends(s, s')
  {
    ProposerExtends(s, s');
  }

  lemma OrderReplyGrows(c: Config, s: System, s': System, id: BlockId, share: Share, cert: Option<Cert>)
    requires Replied(s, s', id, share, cert) && Open(s.p, id) && id !in s.orderCerts && InvOf(c, s, OfProposer)
    ensures Extends(s, s') && InvOf(c, s', OfProposer)
  {
    ProposerMeans(c, s);
    OrderReplyExtends(s, s', id, share, cert);
    OrderReplyBlocks(s.p, s'.p, id, share);
    InstancesStable(s.p, s'.p);
    ProposerFolds(c, s');
  }

  lemma OrderReplyLedger(c: Config, s: System, s': System, id: BlockId, share: Share, cert: Option<Cert>)
    requires InvOf(c, s, OfLedger) && OPAReply(share.signer, id, share) in s.sent && Replied(s, s', id, share, cert)
    requires id !in s.orderCerts && Extends(s, s')
    ensures InvOf(c, s', OfLedger)
  {
    LedgerMeans(c, s);
    OrderReplyCerts(s, s', id, share, cert);
    OrderReplyRecords(s, s', id, share, cert);
    LedgerFolds(c, s');
  }

  lemma OrderReplyQuorum(s: System, id: BlockId)
    requires id in s.p.ord && forall sh :: sh in s.p.ord[id].sigs ==> OPAReply(sh.signer, id, sh) in s.sent
    ensures var f := s.p.ord[id];
            var cert := PenRecovery(f.sigs, f.hash, f.booth.id, |f.booth.indices|);
            cert.Some? ==> OrderCertOk(s, id, cert.value)
  {
    var f := s.p.ord[id];
    var cert := PenRecovery(f.sigs, f.hash, f.booth.id, |f.booth.indices|);
    if cert.Some? {
      RecoveredQuorum(f.sigs, f.hash, f.booth.id, |f.booth.indices|);
      forall v | v in cert.value.signers ensures OrderShareSent(s, v, id, f.booth.id, f.hash) {
        assert Share(v, f.booth.id, f.hash) in f.sigs;
      }
    }
  }

  lemma OrderReplyCerts(s: System, s': System, id: BlockId, share: Share, cert: Option<Cert>)
    requires CertsOk(s) && OPAReply(share.signer, id, share) in s.sent && Extends(s, s') && id !in s.orderCerts
    requires Appends(s.p, s'.p, id, share) && Certifies(s, s', id, cert)
    ensures CertsOk(s')
  {
    ExtendsMeans(s, s');
    OrderCertsStable(s, s');
    OrderReplyQuorum(s', id);
  }

  lemma OrderReplyRecords(s: System, s': System, id: BlockId, share: Share, cert: Option<Cert>)
    requires RecordOk(s) && Appends(s.p, s'.p, id, share) && Certifies(s, s', id, cert) && id !in s.orderCerts
    ensures RecordOk(s')
  {
  }

  lemma OpenNotCertified(c: Config, s: System, id: BlockId)
    requires InvOf(c, s, OfLedger) && Open(s.p, id)
    ensures id !in s.orderCerts
  {
    LedgerMeans(c, s);
  }

  lemma OrderReplyMoves(c: Config, s: System, s': System, id: BlockId, share: Share, cert: Option<Cert>)
    requires Inv(c, s) && OPAReply(share.signer, id, share) in s.sent && Open(s.p, id)
             && Replied(s, s', id, share, cert)
    ensures Inv(c, s')
  {
    InvSplits(c, s);
    OpenNotCertified(c, s, id);
    OrderReplyGrows(c, s, s', id, share, cert);
    OrderReplyLedger(c, s, s', id, share, cert);
    TrafficKept(c, s, s', {});
    InvJoins(c, s');
  }

  lemma OrderReplyKeepsInv(c: Config, s: System, m: Msg)
    requires Inv(c, s) && m in s.sent && m.OPAReply?
    ensures Inv(c, TakeOrderReply(s, m.id, m.share))
  {
    InvSplits(c, s);
    MsgHolds(c, s, m);
    if Open(s.p, m.id) {
      OrderReplyShape(s, m.id, m.share);
      OrderReplyMoves(c, s, TakeOrderReply(s, m.id, m.share), m.id, m.share, OrderReplyStep(s.p, m.id, m.share).1);
    } else {
      assert TakeOrderReply(s, m.id, m.share) == s;
    }
  }

  /** Every recorded block is cached, in a booth that has members. */
  lemma RangeComplete(s: System)
    requires BlocksOk(s.p) && RecordOk(s) && RegistryOk(s.p)
    ensures Complete(s.p.cmt, s.p.rec.Unread())
    ensures forall b :: b in s.p.rec.Unread() ==> b in s.p.rec.blockIDs && b in s.p.ord
  {
    forall b | b in s.p.rec.Unread()
      ensures b in s.p.rec.blockIDs && b in s.p.ord && b in s.p.cmt && s.p.cmt[b].booth.indices != [] {
      assert BlockOk(s.p, b);
    }
  }

  lemma CollectFromOrd(p: ProposerState, commit: seq<ServerId>, range: seq<BlockId>)
    requires BlocksOk(p) && Complete(p.cmt, range) && forall b :: b in range ==> b in p.ord
    ensures Collect(p.cmt, commit, range).range == HashesOf(p.ord, range)
    ensures Collect(p.cmt, commit, range).tx == TxOf(p.ord, range)
  {
    CollectExactly(p.cmt, commit, range);
    forall b | b in range ensures SameBlock(p.ord[b], p.cmt[b]) {
      assert BlockOk(p, b);
    }
    TxOfStable(p.cmt, p.ord, range);
  }

  /** The recorder has been read to its end; of the caches at most the instances change. */
  ghost predicate Polled(s: System, s': System)
  {
    && RegistryOk(s'.p) && s.p.reg.b <= s'.p.reg.b && s'.p.rec == Recorder(s.p.rec.blockIDs, |s.p.rec.blockIDs|)
    && s'.p.ord == s.p.ord && s'.p.cmt == s.p.cmt && s'.p.logIndex == s.p.logIndex && s'.p.metaSigs == s.p.metaSigs
    && s'.vs == s.vs && s'.orderCerts == s.orderCerts && s'.commitCerts == s.commitCerts && s'.locals == s.locals
  }

  ghost predicate SameInstances(p: ProposerState, p': ProposerState)
  {
    p'.consInstID == p.consInstID && p'.metaHash == p.metaHash && p'.metaBids == p.metaBids
    && p'.dataTx == p.dataTx && p'.dataBoo == p.dataBoo
  }

  /** The next instance covers `range` in `booth`. */
  ghost predicate Opens(p: ProposerState, p': ProposerState, booth: Booth, range: seq<BlockId>)
  {
    var n := p.consInstID;
    && p'.consInstID == n + 1 && p'.metaHash == p.metaHash[n := OfRange(HashesOf(p.ord, range))]
    && p'.metaBids == p.metaBids[n := range] && p'.dataTx == p.dataTx[n := TxOf(p.ord, range)]
    && p'.dataBoo == p.dataBoo[n := booth]
  }

  ghost function AnnouncementOf(p: ProposerState, booth: Booth, range: seq<BlockId>): Announced
  {
    var k := Collect(p.cmt, booth.indices, range);
    Announced(CpaEntry([], booth, range, p.consInstID, k.range, OfRange(k.range)), k.resent, k.newMembers)
  }

  ghost predicate Started(c: Config, s: System, s': System, booth: Booth, range: seq<BlockId>)
  {
    && Polled(s, s') && booth.id < |s'.p.reg.b| && s'.p.reg.b[booth.id] == booth
    && if range == [] then SameInstances(s.p, s'.p) && s'.sent == s.sent
       else Opens(s.p, s'.p, booth, range) && s'.sent == s.sent + Announcements(c, AnnouncementOf(s.p, booth, range))
  }

  /** Nothing stops the collection over cached blocks, so the instance is opened as announced. */
  lemma AnnounceShape(p: ProposerState, booth: Booth, range: seq<BlockId>)
    requires BlocksOk(p) && Complete(p.cmt, range) && range != [] && forall b :: b in range ==> b in p.ord
    ensures Opens(p, AnnounceStep(p, booth, range).0, booth, range)
    ensures AnnounceStep(p, booth, range).1 == Some(AnnouncementOf(p, booth, range))
  {
    CollectFromOrd(p, booth.indices, range);
    CollectExactly(p.cmt, booth.indices, range);
  }

  function CommitBooth(p: ProposerState, pattern: seq<ServerId>): Booth
  {
    var (reg, boothId) := Lookup(p.reg, pattern);
    BoothAt(reg, boothId)
  }

  /** The proposer with the recorder read to its end and the commit booth looked up. */
  lemma PollShape(p: ProposerState, pattern: seq<ServerId>) returns (p1: ProposerState, booth: Booth)
    requires RegistryOk(p) && pattern != []
    ensures RegistryOk(p1) && p.reg.b <= p1.reg.b && booth.id < |p1.reg.b| && p1.reg.b[booth.id] == booth
    ensures booth == CommitBooth(p, pattern)
    ensures p1 == p.(reg := p1.reg, rec := Recorder(p.rec.blockIDs, |p.rec.blockIDs|))
    ensures ConsensusStep(p, pattern) ==
            if p.rec.Unread() == [] then (p1, None) else AnnounceStep(p1, booth, p.rec.Unread())
  {
    LookupBooth(p, pattern);
    var (reg, boothId) := Lookup(p.reg, pattern);
    booth := reg.b[boothId];
    p1 := p.(reg := reg, rec := Recorder(p.rec.blockIDs, |p.rec.blockIDs|));
  }

  lemma StartShape(c: Config, s: System, s': System, p1: ProposerState, booth: Booth,
                   out: (ProposerState, Option<Announced>))
    requires s.p.rec.Valid() && RegistryOk(p1) && s.p.reg.b <= p1.reg.b && booth.id < |p1.reg.b|
             && p1.reg.b[booth.id] == booth
    requires p1 == s.p.(reg := p1.reg, rec := Recorder(s.p.rec.blockIDs, |s.p.rec.blockIDs|))
    requires s' == s.(p := out.0, sent := s.sent + if out.1.None? then {} else Announcements(c, out.1.value))
    requires var range := s.p.rec.Unread();
             if range == [] then out == (p1, None)
             else out == (AnnounceStep(p1, booth, range).0, Some(AnnouncementOf(p1, booth, range)))
                  && Opens(p1, out.0, booth, range)
    ensures Started(c, s, s', booth, s.p.rec.Unread())
  {
  }

  lemma StartExtends(c: Config, s: System, s': System, booth: Booth, range: seq<BlockId>)
    requires Started(c, s, s', booth, range) && InstancesOk(s.p)
    ensures Extends(s, s') && s.p.consInstID !in s.p.metaHash
  {
    InstancesMean(s.p);
    assert s.p.consInstID !in s.p.metaHash;
    assert s.p.consInstID !in s.p.dataBoo && s.p.consInstID !in s.p.metaBids;
    InstancesExtend(s, s', booth, range);
  }

  lemma InstancesExtend(s: System, s': System, booth: Booth, range: seq<BlockId>)
    requires s.p.consInstID !in s.p.metaHash && s.p.consInstID !in s.p.dataBoo && s.p.consInstID !in s.p.metaBids
    requires Polled(s, s') && s.sent <= s'.sent && (SameInstances(s.p, s'.p) || Opens(s.p, s'.p, booth, range))
    ensures Extends(s, s')
  {
  }

  /** An instance is described by maps that may have gained others. */
  lemma OldInstance(p: ProposerState, p': ProposerState, i: InstId)
    requires InstanceOk(p, i) && p.reg.b <= p'.reg.b && p'.ord == p.ord
    requires p.metaHash[i] == (if i in p'.metaHash then p'.metaHash[i] else OfRange(map[])) && i in p'.metaHash
    requires i in p'.metaBids && p'.metaBids[i] == p.metaBids[i] && i in p'.dataBoo && p'.dataBoo[i] == p.dataBoo[i]
    requires i in p'.dataTx && p'.dataTx[i] == p.dataTx[i]
    ensures InstanceOk(p', i)
  {
    InstanceStable(p, p', i);
  }

  lemma NewInstance(p: ProposerState, p': ProposerState, booth: Booth, range: seq<BlockId>)
    requires Opens(p, p', booth, range) && range != [] && p'.ord == p.ord
    requires forall b :: b in range ==> b in p.ord
    requires booth.id < |p'.reg.b| && p'.reg.b[booth.id] == booth
    ensures InstanceOk(p', p.consInstID)
  {
  }

  lemma RangesJoin(p: ProposerState, p': ProposerState, range: seq<BlockId>)
    requires p'.metaBids == p.metaBids[p.consInstID := range]
    ensures Flatten(InstanceRanges(p', p.consInstID + 1)) == Flatten(InstanceRanges(p, p.consInstID)) + range
  {
    var n := p.consInstID;
    assert InstanceRanges(p', n + 1) == InstanceRanges(p, n) + [range];
    FlattenConcat(InstanceRanges(p, n), [range]);
    assert Flatten([range]) == range;
  }

  lemma InstancesKept(p: ProposerState, p': ProposerState, booth: Booth, range: seq<BlockId>)
    requires SameInstances(p, p') || Opens(p, p', booth, range)
    requires p.reg.b <= p'.reg.b && p'.ord == p.ord && p.consInstID !in p.metaHash
    requires forall i :: i in p.metaHash ==> InstanceOk(p, i)
    ensures forall i :: i in p.metaHash ==> InstanceOk(p', i)
  {
    forall i | i in p.metaHash ensures InstanceOk(p', i) {
      assert InstanceOk(p, i) && i != p.consInstID;
      OldInstance(p, p', i);
    }
  }

  lemma RangesCover(p: ProposerState, p': ProposerState, booth: Booth, range: seq<BlockId>)
    requires p.rec.Valid() && range == p.rec.Unread() && p'.rec == Recorder(p.rec.blockIDs, |p.rec.blockIDs|)
    requires Flatten(InstanceRanges(p, p.consInstID)) == p.rec.blockIDs[..p.rec.lastIdx]
    requires if range == [] then SameInstances(p, p') else Opens(p, p', booth, range)
    ensures Flatten(InstanceRanges(p', p'.consInstID)) == p'.rec.blockIDs[..p'.rec.lastIdx]
  {
    assert p'.rec.blockIDs[..p'.rec.lastIdx] == p.rec.blockIDs[..p.rec.lastIdx] + range;
    if range == [] {
      SameRanges(p, p', p.consInstID);
    } else {
      RangesJoin(p, p', range);
    }
  }

  lemma InstanceAdded(p: ProposerState, p': ProposerState, booth: Booth, range: seq<BlockId>)
    requires Opens(p, p', booth, range) && InstanceOk(p', p.consInstID)
    requires forall i :: i in p.metaHash ==> InstanceOk(p', i)
    requires forall i: InstId :: i in p.metaHash <==> i < p.consInstID
    requires (forall i :: i in p.dataBoo ==> i in p.metaHash) && forall i :: i in p.metaBids ==> i in p.metaHash
    ensures forall i: InstId :: i in p'.metaHash <==> i < p'.consInstID
    ensures forall i :: i in p'.metaHash ==> InstanceOk(p', i)
    ensures (forall i :: i in p'.dataBoo ==> i in p'.metaHash) && forall i :: i in p'.metaBids ==> i in p'.metaHash
  {
  }

  lemma StartInstances(p: ProposerState, p': ProposerState, booth: Booth, range: seq<BlockId>)
    requires p.rec.Valid() && InstancesOk(p)
    requires range == p.rec.Unread() && p'.rec == Recorder(p.rec.blockIDs, |p.rec.blockIDs|)
    requires p.reg.b <= p'.reg.b && p'.ord == p.ord && booth.id < |p'.reg.b| && p'.reg.b[booth.id] == booth
    requires if range == [] then SameInstances(p, p') else Opens(p, p', booth, range)
    requires forall b :: b in range ==> b in p.ord
    ensures InstancesOk(p')
  {
    InstancesMean(p);
    assert p.consInstID !in p.metaHash;
    InstancesKept(p, p', booth, range);
    RangesCover(p, p', booth, range);
    if range != [] {
      NewInstance(p, p', booth, range);
      InstanceAdded(p, p', booth, range);
    }
    InstancesAre(p');
  }

  lemma StartGrows(c: Config, s: System, s': System, booth: Booth, range: seq<BlockId>)
    requires s.p.rec.Valid() && InvOf(c, s, OfProposer) && Started(c, s, s', booth, range) && range == s.p.rec.Unread()
    requires forall b :: b in range ==> b in s.p.ord
    ensures Extends(s, s') && InvOf(c, s', OfProposer)
  {
    ProposerMeans(c, s);
    StartExtends(c, s, s', booth, range);
    SameBlocks(s.p, s'.p);
    StartInstances(s.p, s'.p, booth, range);
    ProposerFolds(c, s');
  }

  /** A resent entry is the cached block with its certificate, if that has been stored. */
  lemma ResentEntryOk(s: System, s': System, b: BlockId)
    requires CertsOk(s) && Extends(s, s') && b in s.p.ord && BlockOk(s.p, b)
    ensures ResentOk(s', Resent(b, s.p.cmt[b]))
  {
    ExtendsMeans(s, s');
  }

  /** Member v gets again each block of the range that was ordered without it. */
  lemma ProvidedTo(s: System, s': System, booth: Booth, range: seq<BlockId>, v: ServerId, b: BlockId)
    requires Complete(s.p.cmt, range) && b in range && v in booth.indices && s'.p.ord == s.p.ord
    requires b in s.p.ord && BlockOk(s.p, b)
    ensures var a := AnnouncementOf(s.p, booth, range);
            Provided(s', v, EntryFor(a.entry, a.resent, a.newMembers, v).prev, b)
  {
    CollectExactly(s.p.cmt, booth.indices, range);
    var a := AnnouncementOf(s.p, booth, range);
    if v !in s.p.cmt[b].booth.indices {
      assert SomeMissing(booth.indices, s.p.cmt[b].booth.indices);
      assert Resent(b, s.p.cmt[b]) in a.resent;
      assert v in a.newMembers;
    }
  }

  lemma ResentAreOk(s: System, s': System, booth: Booth, range: seq<BlockId>)
    requires CertsOk(s) && BlocksOk(s.p) && Extends(s, s') && Complete(s.p.cmt, range)
    requires forall b :: b in range ==> b in s.p.ord
    ensures forall r :: r in AnnouncementOf(s.p, booth, range).resent ==> ResentOk(s', r)
  {
    CollectExactly(s.p.cmt, booth.indices, range);
    forall r | r in AnnouncementOf(s.p, booth, range).resent ensures ResentOk(s', r) {
      ResentEntryOk(s, s', r.id);
    }
  }

  /** A member of the commit booth is announced hashes it can check, and sent again what its booths missed. */
  lemma AnnouncementOk(c: Config, s: System, s': System, booth: Booth, range: seq<BlockId>, v: ServerId)
    requires Complete(s.p.cmt, range) && BlocksOk(s.p) && (forall b :: b in range ==> b in s.p.ord)
             && s'.p.ord == s.p.ord
    requires Opens(s.p, s'.p, booth, range) && v in Recipients(c, booth)
    requires forall r :: r in AnnouncementOf(s.p, booth, range).resent ==> ResentOk(s', r)
    ensures var a := AnnouncementOf(s.p, booth, range);
            MsgOk(c, s', CPA(v, EntryFor(a.entry, a.resent, a.newMembers, v)))
  {
    var a := AnnouncementOf(s.p, booth, range);
    var e := EntryFor(a.entry, a.resent, a.newMembers, v);
    CollectFromOrd(s.p, booth.indices, range);
    forall b | b in range ensures Provided(s', v, e.prev, b) {
      ProvidedTo(s, s', booth, range, v, b);
    }
  }

  lemma AnnouncementsOk(c: Config, s: System, s': System, booth: Booth, range: seq<BlockId>)
    requires CertsOk(s) && BlocksOk(s.p) && Extends(s, s') && Complete(s.p.cmt, range) && s'.p.ord == s.p.ord
    requires (forall b :: b in range ==> b in s.p.ord) && Opens(s.p, s'.p, booth, range)
    ensures forall m :: m in Announcements(c, AnnouncementOf(s.p, booth, range)) ==> MsgOk(c, s', m)
  {
    ResentAreOk(s, s', booth, range);
    forall m | m in Announcements(c, AnnouncementOf(s.p, booth, range)) ensures MsgOk(c, s', m) {
      AnnouncementOk(c, s, s', booth, range, m.to);
    }
  }

  lemma StartTraffic(c: Config, s: System, s': System, booth: Booth, range: seq<BlockId>)
    requires InvOf(c, s, OfTraffic) && Started(c, s, s', booth, range) && Extends(s, s')
    requires CertsOk(s) && BlocksOk(s.p) && Complete(s.p.cmt, range) && forall b :: b in range ==> b in s.p.ord
    ensures InvOf(c, s', OfTraffic)
  {
    if range == [] {
      TrafficKept(c, s, s', {});
    } else {
      AnnouncementsOk(c, s, s', booth, range);
      TrafficKept(c, s, s', Announcements(c, AnnouncementOf(s.p, booth, range)));
    }
  }

  lemma StartMoves(c: Config, s: System, s': System, booth: Booth)
    requires Inv(c, s) && Holds(c, s, TheRegistry) && Started(c, s, s', booth, s.p.rec.Unread())
    ensures Inv(c, s')
  {
    InvSplits(c, s);
    ProposerMeans(c, s);
    LedgerMeans(c, s);
    RangeComplete(s);
    StartGrows(c, s, s', booth, s.p.rec.Unread());
    LedgerKept(c, s, s');
    StartTraffic(c, s, s', booth, s.p.rec.Unread());
    InvJoins(c, s');
  }

  lemma RoundReady(c: Config, s: System)
    requires Inv(c, s)
    ensures RegistryOk(s.p) && BlocksOk(s.p) && Complete(s.p.cmt, s.p.rec.Unread())
    ensures forall b :: b in s.p.rec.Unread() ==> b in s.p.ord
  {
    InvSplits(c, s);
    ProposerMeans(c, s);
    LedgerMeans(c, s);
    RangeComplete(s);
  }

  lemma StartIsStarted(c: Config, s: System, vehicles: seq<ServerId>) returns (booth: Booth)
    requires Inv(c, s) && s.p.rec.Valid()
    ensures Started(c, s, Start(c, s, vehicles), booth, s.p.rec.Unread())
            && booth == CommitBooth(s.p, [c.self] + vehicles)
  {
    RoundReady(c, s);
    var p1;
    p1, booth := RoundShape(s.p, [c.self] + vehicles);
    StartShape(c, s, Start(c, s, vehicles), p1, booth, ConsensusStep(s.p, [c.self] + vehicles));
  }

  lemma RoundShape(p: ProposerState, pattern: seq<ServerId>) returns (p1: ProposerState, booth: Booth)
    requires RegistryOk(p) && BlocksOk(p) && pattern != []
    requires Complete(p.cmt, p.rec.Unread()) && forall b :: b in p.rec.Unread() ==> b in p.ord
    ensures booth == CommitBooth(p, pattern)
    ensures RegistryOk(p1) && p.reg.b <= p1.reg.b && booth.id < |p1.reg.b| && p1.reg.b[booth.id] == booth
    ensures p1 == p.(reg := p1.reg, rec := Recorder(p.rec.blockIDs, |p.rec.blockIDs|))
    ensures var range, out := p.rec.Unread(), ConsensusStep(p, pattern);
            if range == [] then out == (p1, None)
            else out == (AnnounceStep(p1, booth, range).0, Some(AnnouncementOf(p1, booth, range)))
                 && Opens(p1, out.0, booth, range)
  {
    p1, booth := PollShape(p, pattern);
    if p.rec.Unread() != [] {
      SameBlocks(p, p1);
      AnnounceShape(p1, booth, p.rec.Unread());
    }
  }

  lemma StartKeepsInv(c: Config, s: System, vehicles: seq<ServerId>)
    requires Inv(c, s) && s.p.rec.Valid()
    ensures Inv(c, Start(c, s, vehicles))
  {
    InvSplits(c, s);
    ProposerMeans(c, s);
    var booth := StartIsStarted(c, s, vehicles);
    StartMoves(c, s, Start(c, s, vehicles), booth);
  }

  // ----- The validators' steps -----

  lemma FaultyMoves(c: Config, s: System, s': System, m: Msg)
    requires Inv(c, s) && (m.OPAReply? || m.CPAReply?) && m.from in c.faulty && m.share.signer == m.from
    requires Extends(s, s') && s'.p == s.p && s'.vs == s.vs && s'.orderCerts == s.orderCerts
             && s'.commitCerts == s.commitCerts
    requires s'.locals == s.locals && s'.sent == s.sent + {m}
    ensures Inv(c, s')
  {
    InvSplits(c, s);
    TrafficKept(c, s, s', {m});
    OnlyTraffic(c, s, s');
  }

  lemma FaultyKeepsInv(c: Config, s: System, m: Msg)
    requires Inv(c, s) && (m.OPAReply? || m.CPAReply?) && m.from in c.faulty && m.share.signer == m.from
    ensures Inv(c, s.(sent := s.sent + {m}))
  {
    FaultyMoves(c, s, s.(sent := s.sent + {m}), m);
  }

  lemma ValidatorMoves(c: Config, s: System, to: ServerId, v: ValidatorState, added: set<Msg>)
    requires Inv(c, s) && to !in c.faulty && v.ord.Keys >= ValidatorOf(s, to).ord.Keys
    requires ValidatorOk(Moved(s, to, v, added), to, v)
    requires forall m :: m in added ==> MsgOk(c, Moved(s, to, v, added), m)
    ensures Inv(c, Moved(s, to, v, added))
  {
    var s' := Moved(s, to, v, added);
    InvSplits(c, s);
    MovedExtends(s, to, v, added);
    MovedTraffic(c, s, s', to, v, added);
    OnlyTraffic(c, s, s');
  }

  lemma MovedExtends(s: System, to: ServerId, v: ValidatorState, added: set<Msg>)
    requires v.ord.Keys >= ValidatorOf(s, to).ord.Keys
    ensures Extends(s, Moved(s, to, v, added))
  {
  }

  lemma MovedTraffic(c: Config, s: System, s': System, to: ServerId, v: ValidatorState, added: set<Msg>)
    requires InvOf(c, s, OfTraffic) && Extends(s, s') && s' == Moved(s, to, v, added) && to !in c.faulty
             && ValidatorOk(s', to, v)
    requires forall m :: m in added ==> MsgOk(c, s', m)
    ensures InvOf(c, s', OfTraffic)
  {
    TrafficMeans(c, s);
    SharesStable(s, s');
    ValidatorsStable(c, s, s');
    SentGrows(c, s, s', added);
    TrafficFolds(c, s');
  }

  lemma BeforeOk(c: Config, s: System, to: ServerId)
    requires InvOf(c, s, OfTraffic)
    ensures ValidatorOk(s, to, ValidatorOf(s, to))
  {
    TrafficMeans(c, s);
  }

  /** A block under an ID not used before. */
  lemma TakenKeepsOk(s: System, me: ServerId, v: ValidatorState, id: BlockId, snapshot: Snapshot)
    requires ValidatorOk(s, me, v) && id in s.p.ord && SameBlock(snapshot, s.p.ord[id]) && snapshot.tSig == None
    ensures ValidatorOk(s, me, v.(ord := v.ord[id := snapshot], cmt := v.cmt[id := snapshot]))
  {
  }

  lemma OAKeepsOk(s: System, me: ServerId, v: ValidatorState, v': ValidatorState, booth: Booth, id: BlockId,
                  entries: Entries, hash: Digest)
    requires ValidatorOk(s, me, v) && id in s.p.ord && SameBlock(s.p.ord[id], Snapshot(hash, entries, [], None, booth))
    requires v' == OAStep(v, me, booth, id, entries, hash).0
    ensures ValidatorOk(s, me, v')
  {
    if id !in v.ord {
      TakenKeepsOk(s, me, v, id, Snapshot(hash, entries, [], None, booth));
    }
  }

  lemma OAReplyOk(c: Config, s: System, s': System, m: Msg, v: ValidatorState)
    requires m.OPA? && MsgOk(c, s, m) && s' == Moved(s, m.to, Handled(v, m).0, Handled(v, m).1) && Extends(s, s')
    ensures forall r :: r in Handled(v, m).1 ==> MsgOk(c, s', r)
  {
    ExtendsMeans(s, s');
  }

  lemma OAKeepsInv(c: Config, s: System, m: Msg)
    requires Inv(c, s) && Enabled(c, s, Validate(m)) && m.OPA?
    ensures Inv(c, Next(c, s, Validate(m)))
  {
    InvSplits(c, s);
    BeforeOk(c, s, m.to);
    MsgHolds(c, s, m);
    var v := ValidatorOf(s, m.to);
    var (v', added) := Handled(v, m);
    OAKeepsOk(s, m.to, v, v', m.booth, m.id, m.entries, m.hash);
    MovedExtends(s, m.to, v', added);
    ValidatorStable(s, Moved(s, m.to, v', added), m.to, v');
    OAReplyOk(c, s, Moved(s, m.to, v', added), m, v);
    ValidatorMoves(c, s, m.to, v', added);
  }

  /** A block's snapshot is replaced by one that is the proposer's, or only gains the proposer's certificate. */
  lemma CachedKeepsOk(s: System, me: ServerId, v: ValidatorState, id: BlockId, snapshot: Snapshot)
    requires ValidatorOk(s, me, v) && id in s.p.ord && SameBlock(snapshot, s.p.ord[id])
    requires snapshot.tSig.Some? ==> id in s.orderCerts && snapshot.tSig.value == s.orderCerts[id]
    ensures ValidatorOk(s, me, v.(cmt := v.cmt[id := snapshot]))
  {
  }

  lemma OBKeepsOk(s: System, to: ServerId, v: ValidatorState, e: OpbEntry, resent: bool)
    requires ValidatorOk(s, to, v) && (resent ==> ResentOk(s, e))
    requires e.combSig.Some? ==> e.id in s.orderCerts && e.combSig.value == s.orderCerts[e.id]
    ensures ValidatorOk(s, to, OBStep(v, e, resent))
  {
    if e.id in v.cmt && e.id in v.ord {
      CachedKeepsOk(s, to, v, e.id, v.cmt[e.id].(tSig := e.combSig));
    } else if resent {
      CachedKeepsOk(s, to, v, e.id, Snapshot(e.hash, e.entries, [], e.combSig, e.booth));
    }
  }

  lemma {:induction false} CatchUpKeepsOk(s: System, to: ServerId, v: ValidatorState, prev: seq<OpbEntry>)
    requires ValidatorOk(s, to, v) && forall r :: r in prev ==> ResentOk(s, r)
    ensures ValidatorOk(s, to, CatchUp(v, prev))
  {
    if prev != [] {
      CatchUpKeepsOk(s, to, v, prev[..|prev| - 1]);
      OBKeepsOk(s, to, CatchUp(v, prev[..|prev| - 1]), prev[|prev| - 1], true);
    }
  }

  lemma OBKeepsInv(c: Config, s: System, m: Msg)
    requires Inv(c, s) && Enabled(c, s, Validate(m)) && m.OPB?
    ensures Inv(c, Next(c, s, Validate(m)))
  {
    InvSplits(c, s);
    BeforeOk(c, s, m.to);
    MsgHolds(c, s, m);
    var v' := OBStep(ValidatorOf(s, m.to), m.opb, false);
    OBKeepsOk(s, m.to, ValidatorOf(s, m.to), m.opb, false);
    MovedExtends(s, m.to, v', {});
    ValidatorStable(s, Moved(s, m.to, v', {}), m.to, v');
    ValidatorMoves(c, s, m.to, v', {});
  }

  /** The handler keeps the caches right, given that its own reply counts as sent. */
  lemma CAKeepsOk(s: System, me: ServerId, v: ValidatorState, e: CpaEntry)
    requires ValidatorOk(s, me, v) && (forall r :: r in e.prev ==> ResentOk(s, r))
    requires e.inst in s.p.metaHash && e.totalHash == s.p.metaHash[e.inst] && e.inst in s.p.dataBoo
    requires CAStep(v, me, e).1.Some? ==> ConsensusShareSent(s, me, e.inst, s.p.dataBoo[e.inst].id, e.totalHash)
    ensures ValidatorOk(s, me, CAStep(v, me, e).0)
  {
    CatchUpKeepsOk(s, me, v, e.prev);
    CatchUpKeeps(v, e.prev);
    var v', v1 := CAStep(v, me, e).0, CatchUp(v, e.prev);
    if CACheck(v, e).1 {
      assert e.inst in v1.tokens ==> v1.tokens + {e.inst} == v1.tokens && e.inst in v1.metaHash;
      SignedKeepsOk(s, me, v1, v', e.inst);
    } else {
      UnsignedKeepsOk(s, me, v1, v');
    }
  }

  lemma UnsignedKeepsOk(s: System, me: ServerId, v: ValidatorState, v': ValidatorState)
    requires ValidatorOk(s, me, v) && v' == v.(dataTx := v'.dataTx, dataBoo := v'.dataBoo)
    ensures ValidatorOk(s, me, v')
  {
  }

  lemma SignedKeepsOk(s: System, me: ServerId, v: ValidatorState, v': ValidatorState, i: InstId)
    requires ValidatorOk(s, me, v) && i in s.p.metaHash && i in s.p.dataBoo
    requires v' == v.(dataTx := v'.dataTx, dataBoo := v'.dataBoo, metaHash := v.metaHash[i := s.p.metaHash[i]],
                      tokens := v.tokens + {i})
    requires ConsensusShareSent(s, me, i, s.p.dataBoo[i].id, s.p.metaHash[i])
    ensures ValidatorOk(s, me, v')
  {
  }

  lemma CAReplyOk(c: Config, s: System, s': System, m: Msg, v: ValidatorState)
    requires m.CPA? && MsgOk(c, s', m) && s' == Moved(s, m.to, Handled(v, m).0, Handled(v, m).1)
    ensures forall r :: r in Handled(v, m).1 ==> MsgOk(c, s', r)
    ensures CAStep(v, m.to, m.cpa).1.Some? ==>
              ConsensusShareSent(s', m.to, m.cpa.inst, s'.p.dataBoo[m.cpa.inst].id, m.cpa.totalHash)
  {
  }

  lemma CAKeepsInv(c: Config, s: System, m: Msg)
    requires Inv(c, s) && Enabled(c, s, Validate(m)) && m.CPA?
    ensures Inv(c, Next(c, s, Validate(m)))
  {
    InvSplits(c, s);
    BeforeOk(c, s, m.to);
    MsgHolds(c, s, m);
    var v := ValidatorOf(s, m.to);
    var (v', added) := Handled(v, m);
    CatchUpKeeps(v, m.cpa.prev);
    MovedExtends(s, m.to, v', added);
    var s' := Moved(s, m.to, v', added);
    MsgStable(c, s, s', m);
    ValidatorStable(s, s', m.to, v);
    CAReplyOk(c, s, s', m, v);
    CAKeepsOk(s', m.to, v, m.cpa);
    ValidatorMoves(c, s, m.to, v', added);
  }

  lemma CBKeepsOk(s: System, me: ServerId, v: ValidatorState, booth: Booth, inst: InstId, cert: Cert, hash: Digest)
    requires ValidatorOk(s, me, v) && inst in v.tokens && inst in s.commitCerts
    ensures ValidatorOk(s, me, CBStep(v, booth, inst, Some(cert), hash))
  {
  }

  lemma CBKeepsInv(c: Config, s: System, m: Msg)
    requires Inv(c, s) && Enabled(c, s, Validate(m)) && m.CPB?
    ensures Inv(c, Next(c, s, Validate(m)))
  {
    InvSplits(c, s);
    BeforeOk(c, s, m.to);
    MsgHolds(c, s, m);
    var v' := CBStep(ValidatorOf(s, m.to), m.booth, m.inst, Some(m.comSig), m.hash);
    CBKeepsOk(s, m.to, ValidatorOf(s, m.to), m.booth, m.inst, m.comSig, m.hash);
    MovedExtends(s, m.to, v', {});
    ValidatorStable(s, Moved(s, m.to, v', {}), m.to, v');
    ValidatorMoves(c, s, m.to, v', {});
  }

  lemma InitialInv(c: Config)
    ensures Inv(c, INITIAL_SYSTEM)
  {
    var s := INITIAL_SYSTEM;
    assert InstanceRanges(s.p, 0) == [];
    InstancesAre(s.p);
    ProposerFolds(c, s);
    LedgerFolds(c, s);
    TrafficFolds(c, s);
    InvJoins(c, s);
  }

  lemma NextKeepsInv(c: Config, s: System, step: Step)
    requires Inv(c, s) && Enabled(c, s, step)
    ensures Inv(c, Next(c, s, step))
  {
    match step {
      case ProposeBlock(vehicles, entries) => ProposeKeepsInv(c, s, vehicles, entries);
      case HandleOrderReply(m) => OrderReplyKeepsInv(c, s, m);
      case StoreSignature(id) => StoreSigKeepsInv(c, s, id);
      case StartInstance(vehicles) => StartKeepsInv(c, s, vehicles);
      case ReadShares(m) => ReadKeepsInv(c, s, m);
      case WriteShares(l) => WriteKeepsInv(c, s, l);
      case Validate(m) =>
        match m {
          case OPA(_, _, _, _, _) => OAKeepsInv(c, s, m);
          case OPB(_, _) => OBKeepsInv(c, s, m);
          case CPA(_, _) => CAKeepsInv(c, s, m);
          case CPB(_, _, _, _, _) => CBKeepsInv(c, s, m);
        }
      case FaultyReply(m) => FaultyKeepsInv(c, s, m);
    }
  }

  lemma {:induction false} RunKeepsInv(c: Config, states: seq<System>, steps: seq<Step>, i: nat)
    requires IsRun(c, states, steps) && i < |states|
    ensures Inv(c, states[i])
  {
    if i == 0 {
      InitialInv(c);
    } else {
      RunKeepsInv(c, states, steps, i - 1);
      NextKeepsInv(c, states[i - 1], steps[i - 1]);
    }
  }
}
