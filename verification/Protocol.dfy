/**
 * The whole protocol as a step machine: one proposer, any number of validators, and a network that
 * delays, reorders, repeats or loses messages at will. The handlers are those of Proposer.dfy and
 * Validator.dfy. Validators in `faulty` reply whatever they like with their own key.
 *
 * A step is one handler on a validator. On the proposer the two sections of a consensus reply are two steps,
 * and so are the recording of an ordered block and the storing of its signature. Three steps join several lock
 * sections: the proposal of a block, an ordering reply up to its recording, whose sections OrderingReplies
 * takes apart, and a consensus round. A round may be taken at once because, of what it reads while it goes over
 * its range, only combined signatures can still change; it sends nothing before its end; and it sees each block
 * once, so it collects what it would from the cache with each block as it was at its turn
 * (Instances.CollectAtOnce). Signatures of different blocks are stored independently of each other, so those
 * stored before their block's turn can be put before the round and the others after it.
 */
module Protocol {
  import opened Types
  import opened Signatures
  import opened Instances
  import opened Proposers
  import opened Validators

  datatype Config = Config(self: ServerId, faulty: set<ServerId>)

  datatype Msg =
    | OPA(to: ServerId, booth: Booth, id: BlockId, entries: Entries, hash: Digest)
    | OPAReply(from: ServerId, id: BlockId, share: Share)
    | OPB(to: ServerId, opb: OpbEntry)
    | CPA(to: ServerId, cpa: CpaEntry)
    | CPAReply(from: ServerId, inst: InstId, share: Share)
    | CPB(to: ServerId, booth: Booth, inst: InstId, comSig: Cert, hash: Digest)

  /** A consensus-reply handler between its two lock sections: the list it read and the share it brings. */
  datatype Local = Local(inst: InstId, shares: seq<Share>, mine: Share)

  /**
   * `sent` are all messages ever sent, any of which may arrive at any time or never. `orderCerts` and
   * `commitCerts` are the combined signatures recovered so far, by block and by instance.
   */
  datatype System = System(p: ProposerState, vs: map<ServerId, ValidatorState>, sent: set<Msg>,
                           orderCerts: map<BlockId, Cert>, commitCerts: map<InstId, Cert>, locals: set<Local>)

  const INITIAL_SYSTEM := System(INITIAL_PROPOSER, map[], {}, map[], map[], {})

  function ValidatorOf(s: System, v: ServerId): ValidatorState
  {
    if v in s.vs then s.vs[v] else INITIAL_VALIDATOR
  }

  function Recipients(c: Config, b: Booth): set<ServerId>
  {
    set v | v in b.indices && v != c.self
  }

  datatype Step =
    | ProposeBlock(vehicles: seq<ServerId>, entries: Entries)
    | HandleOrderReply(orderReply: Msg)
    | StoreSignature(id: BlockId)
    | StartInstance(vehicles: seq<ServerId>)
    | ReadShares(consensusReply: Msg)
    | WriteShares(local: Local)
    | Validate(m: Msg)
    | FaultyReply(reply: Msg)

  ghost predicate Enabled(c: Config, s: System, step: Step)
  {
    match step
    case ProposeBlock(vehicles, entries) => |vehicles| > 2 && entries != map[]
    case HandleOrderReply(m) => m in s.sent && m.OPAReply?
    case StoreSignature(id) => id in s.orderCerts && id in s.p.ord
    case StartInstance(vehicles) => |vehicles| > 2 && s.p.rec.Valid()
    case ReadShares(m) => m in s.sent && m.CPAReply?
    case WriteShares(l) => l in s.locals && l.inst in s.p.metaHash
    case Validate(m) =>
      m in s.sent && !m.OPAReply? && !m.CPAReply? && m.to !in c.faulty
      && (m.CPB? ==> m.inst in ValidatorOf(s, m.to).tokens)
    case FaultyReply(m) => (m.OPAReply? || m.CPAReply?) && m.from in c.faulty && m.share.signer == m.from
  }

  ghost function Propose(c: Config, s: System, vehicles: seq<ServerId>, entries: Entries): System
  {
    var (p, booth) := ProposeStep(s.p, [c.self] + vehicles, entries);
    s.(p := p, sent := s.sent + Proposals(c, booth, s.p.logIndex, entries))
  }

  ghost function Proposals(c: Config, booth: Booth, id: BlockId, entries: Entries): set<Msg>
  {
    set v | v in Recipients(c, booth) :: OPA(v, booth, id, entries, OfBlock(entries))
  }

  ghost function TakeOrderReply(s: System, id: BlockId, share: Share): System
  {
    var (p, cert) := OrderReplyStep(s.p, id, share);
    s.(p := p, orderCerts := if cert.Some? then s.orderCerts[id := cert.value] else s.orderCerts)
  }

  ghost function SendOrder(c: Config, s: System, id: BlockId): System
    requires id in s.orderCerts && id in s.p.ord
  {
    s.(p := StoreSigStep(s.p, id, s.orderCerts[id]),
       sent := s.sent + Orders(c, BoothAt(s.p.reg, s.p.ord[id].booth.id), OrderOf(s, id)))
  }

  function OrderOf(s: System, id: BlockId): OpbEntry
    requires id in s.orderCerts && id in s.p.ord
  {
    OpbEntry(s.p.ord[id].booth, id, Some(s.orderCerts[id]), map[], s.p.ord[id].hash)
  }

  ghost function Orders(c: Config, booth: Booth, e: OpbEntry): set<Msg>
  {
    set v | v in Recipients(c, booth) :: OPB(v, e)
  }

  ghost function Start(c: Config, s: System, vehicles: seq<ServerId>): System
    requires s.p.rec.Valid()
  {
    var (p, out) := ConsensusStep(s.p, [c.self] + vehicles);
    s.(p := p, sent := s.sent + if out.None? then {} else Announcements(c, out.value))
  }

  ghost function Read(s: System, inst: InstId, share: Share): System
  {
    var local := ReadSharesStep(s.p, inst);
    if local.None? then s else s.(locals := s.locals + {Local(inst, local.value, share)})
  }

  ghost function Write(c: Config, s: System, l: Local): System
    requires l.inst in s.p.metaHash
  {
    var (p, cert) := WriteSharesStep(s.p, l.inst, l.shares, l.mine);
    s.(p := p, commitCerts := if cert.Some? then s.commitCerts[l.inst := cert.value] else s.commitCerts,
       sent := s.sent + if cert.Some? then Commits(c, s.p, l.inst, cert.value) else {})
  }

  /** The members are looked up in the registry again; a booth that is not there is empty. */
  ghost function Commits(c: Config, p: ProposerState, inst: InstId, cert: Cert): set<Msg>
    requires inst in p.metaHash
  {
    var booth := ResidingBooth(p, inst);
    set v | v in Recipients(c, BoothAt(p.reg, booth.id)) :: CPB(v, booth, inst, cert, p.metaHash[inst])
  }

  /** A validator's handler leaves it `v` and sends `added`. */
  ghost function Moved(s: System, to: ServerId, v: ValidatorState, added: set<Msg>): System
  {
    s.(vs := s.vs[to := v], sent := s.sent + added)
  }

  /** What validator m.to becomes on message m, and what it sends. */
  ghost function Handled(v: ValidatorState, m: Msg): (ValidatorState, set<Msg>)
    requires !m.OPAReply? && !m.CPAReply? && (m.CPB? ==> m.inst in v.tokens)
  {
    match m
    case OPA(to, booth, id, entries, hash) =>
      var (v', share) := OAStep(v, to, booth, id, entries, hash);
      (v', if share.None? then {} else {OPAReply(to, id, share.value)})
    case OPB(to, e) => (OBStep(v, e, false), {})
    case CPA(to, e) =>
      var (v', share) := CAStep(v, to, e);
      (v', if share.None? then {} else {CPAReply(to, e.inst, share.value)})
    case CPB(to, booth, inst, comSig, hash) => (CBStep(v, booth, inst, Some(comSig), hash), {})
  }

  ghost function Next(c: Config, s: System, step: Step): System
    requires Enabled(c, s, step)
  {
    match step
    case ProposeBlock(vehicles, entries) => Propose(c, s, vehicles, entries)
    case HandleOrderReply(m) => TakeOrderReply(s, m.id, m.share)
    case StoreSignature(id) => SendOrder(c, s, id)
    case StartInstance(vehicles) => Start(c, s, vehicles)
    case ReadShares(m) => Read(s, m.inst, m.share)
    case WriteShares(l) => Write(c, s, l)
    case Validate(m) =>
      var (v, added) := Handled(ValidatorOf(s, m.to), m);
      Moved(s, m.to, v, added)
    case FaultyReply(m) => s.(sent := s.sent + {m})
  }

  ghost function Announcements(c: Config, a: Announced): set<Msg>
  {
    set v | v in Recipients(c, a.entry.booth) :: CPA(v, EntryFor(a.entry, a.resent, a.newMembers, v))
  }

  /** A run: states[i + 1] comes of states[i] by the enabled step steps[i]. */
  ghost predicate IsRun(c: Config, states: seq<System>, steps: seq<Step>)
  {
    && |states| == |steps| + 1 && states[0] == INITIAL_SYSTEM
    && forall i :: 0 <= i < |steps| ==> Enabled(c, states[i], steps[i]) && states[i + 1] == Next(c, states[i], steps[i])
  }

  // ----- What every message ever sent says about the proposer's state -----

  /** Same block: the snapshots differ at most in their signatures. */
  predicate SameBlock(a: Snapshot, b: Snapshot)
  {
    a.hash == b.hash && a.entries == b.entries && a.booth == b.booth
  }

  ghost predicate OrderShareSent(s: System, v: ServerId, id: BlockId, boothId: nat, hash: Digest)
  {
    OPAReply(v, id, Share(v, boothId, hash)) in s.sent
  }

  ghost predicate ConsensusShareSent(s: System, v: ServerId, inst: InstId, boothId: nat, hash: Digest)
  {
    CPAReply(v, inst, Share(v, boothId, hash)) in s.sent
  }

  /** `threshold` distinct servers each replied for this block with a share on its hash. */
  ghost predicate OrderCertOk(s: System, id: BlockId, cert: Cert)
  {
    && id in s.p.ord && cert.boothId == s.p.ord[id].booth.id && cert.digest == s.p.ord[id].hash
    && |cert.signers| == GetThreshold(|s.p.ord[id].booth.indices|)
    && forall v :: v in cert.signers ==> OrderShareSent(s, v, id, cert.boothId, cert.digest)
  }

  ghost predicate CommitCertOk(s: System, inst: InstId, cert: Cert)
  {
    && inst in s.p.metaHash && inst in s.p.dataBoo
    && cert.boothId == s.p.dataBoo[inst].id && cert.digest == s.p.metaHash[inst]
    && |cert.signers| == GetThreshold(|s.p.dataBoo[inst].indices|)
    && forall v :: v in cert.signers ==> ConsensusShareSent(s, v, inst, cert.boothId, cert.digest)
  }

  /** A resent entry is the block as the proposer has it, with its ordering certificate if that was stored in time. */
  ghost predicate ResentOk(s: System, r: OpbEntry)
  {
    && r.id in s.p.ord && r.hash == s.p.ord[r.id].hash && r.entries == s.p.ord[r.id].entries
    && r.booth == s.p.ord[r.id].booth
    && (r.combSig.Some? ==> r.id in s.orderCerts && r.combSig.value == s.orderCerts[r.id])
  }

  /** Member v was in the block's ordering booth, or is sent the block again. */
  ghost predicate Provided(s: System, v: ServerId, prev: seq<OpbEntry>, b: BlockId)
  {
    b in s.p.ord && (v in s.p.ord[b].booth.indices || exists r :: r in prev && r.id == b)
  }

  ghost predicate MsgOk(c: Config, s: System, m: Msg)
  {
    match m
    case OPA(to, booth, id, entries, hash) =>
      id in s.p.ord && SameBlock(s.p.ord[id], Snapshot(hash, entries, [], None, booth)) && to in booth.indices
      && to != c.self
    case OPAReply(from, id, share) =>
      share.signer == from
      && (from !in c.faulty ==>
            && id in s.p.ord && from in s.p.ord[id].booth.indices && from != c.self
            && share == Share(from, s.p.ord[id].booth.id, s.p.ord[id].hash)
            && id in ValidatorOf(s, from).ord)
    case OPB(to, e) =>
      && e.id in s.p.ord && e.booth == s.p.ord[e.id].booth && e.hash == s.p.ord[e.id].hash
      && e.id in s.orderCerts && e.combSig == Some(s.orderCerts[e.id])
      && to in e.booth.indices && to != c.self
    case CPA(to, e) =>
      && e.inst in s.p.metaHash && e.inst in s.p.metaBids && e.inst in s.p.dataBoo
      && e.totalHash == s.p.metaHash[e.inst] && e.bids == s.p.metaBids[e.inst] && e.booth == s.p.dataBoo[e.inst]
      && e.totalHash == OfRange(e.rangeHash) && e.rangeHash == HashesOf(s.p.ord, e.bids)
      && to in e.booth.indices && to != c.self
      && (forall r :: r in e.prev ==> ResentOk(s, r))
      && (forall b :: b in e.bids ==> Provided(s, to, e.prev, b))
    case CPAReply(from, inst, share) =>
      share.signer == from
      && (from !in c.faulty ==>
            && inst in s.p.metaHash && inst in s.p.dataBoo && from in s.p.dataBoo[inst].indices && from != c.self
            && share == Share(from, s.p.dataBoo[inst].id, s.p.metaHash[inst]))
    case CPB(to, booth, inst, comSig, hash) =>
      && CommitCertOk(s, inst, comSig) && inst in s.commitCerts && hash == s.p.metaHash[inst]
      && booth == s.p.dataBoo[inst]
      && to in booth.indices && to != c.self
  }

  ghost predicate AllSentOk(c: Config, s: System)
  {
    forall m :: m in s.sent ==> MsgOk(c, s, m)
  }

  // ----- What holds of the proposer -----

  ghost predicate RegistryOk(p: ProposerState)
  {
    p.reg.Valid() && p.rec.Valid() && forall i :: 0 <= i < |p.reg.b| ==> p.reg.b[i].indices != []
  }

  ghost predicate BlockOk(p: ProposerState, id: BlockId)
    requires id in p.ord
  {
    var f := p.ord[id];
    && id < p.logIndex && id in p.cmt && SameBlock(f, p.cmt[id]) && f.hash == OfBlock(f.entries)
    && f.booth.id < |p.reg.b| && p.reg.b[f.booth.id] == f.booth
    && |f.sigs| <= GetThreshold(|f.booth.indices|)
  }

  ghost predicate BlocksOk(p: ProposerState)
  {
    (forall id :: id in p.ord ==> BlockOk(p, id)) && (forall id :: id in p.cmt ==> id in p.ord)
  }

  ghost predicate CertsOk(s: System)
  {
    && (forall id :: id in s.orderCerts ==> OrderCertOk(s, id, s.orderCerts[id]))
    && (forall id :: id in s.p.cmt && s.p.cmt[id].tSig.Some? ==>
          id in s.orderCerts && s.p.cmt[id].tSig.value == s.orderCerts[id])
    && (forall id, sh :: id in s.p.ord && sh in s.p.ord[id].sigs ==> OPAReply(sh.signer, id, sh) in s.sent)
  }

  /** The recorded blocks are those with a certificate, and their share lists are full; none is recorded twice. */
  ghost predicate RecordOk(s: System)
  {
    && Distinct(s.p.rec.blockIDs)
    && (forall id: BlockId :: id in s.p.rec.blockIDs <==> id in s.orderCerts)
    && (forall id :: id in s.orderCerts ==>
          id in s.p.ord && |s.p.ord[id].sigs| == GetThreshold(|s.p.ord[id].booth.indices|))
  }

  ghost predicate InstanceOk(p: ProposerState, i: InstId)
  {
    && i in p.metaHash && i in p.metaBids && i in p.dataBoo && i in p.dataTx
    && p.metaBids[i] != []
    && (forall b :: b in p.metaBids[i] ==> b in p.ord)
    && p.metaHash[i] == OfRange(HashesOf(p.ord, p.metaBids[i]))
    && p.dataTx[i] == TxOf(p.ord, p.metaBids[i])
    && p.dataBoo[i].id < |p.reg.b| && p.reg.b[p.dataBoo[i].id] == p.dataBoo[i]
  }

  ghost function InstanceRanges(p: ProposerState, n: nat): seq<seq<BlockId>>
  {
    seq(n, i requires 0 <= i < n => if i in p.metaBids then p.metaBids[i] else [])
  }

  datatype InstanceClause = AreNumbered | AreDescribed | AreListed | AreReadInOrder

  /** The instances are numbered 0, 1, ... and their ranges in order are the recorded IDs that were read. */
  ghost predicate InstancesHold(p: ProposerState, k: InstanceClause)
  {
    match k
    case AreNumbered => forall i: InstId :: i in p.metaHash <==> i < p.consInstID
    case AreDescribed => forall i :: i in p.metaHash ==> InstanceOk(p, i)
    case AreListed =>
      (forall i :: i in p.dataBoo ==> i in p.metaHash) && forall i :: i in p.metaBids ==> i in p.metaHash
    case AreReadInOrder =>
      p.rec.Valid() && Flatten(InstanceRanges(p, p.consInstID)) == p.rec.blockIDs[..p.rec.lastIdx]
  }

  ghost predicate InstancesOk(p: ProposerState)
  {
    forall k :: InstancesHold(p, k)
  }

  lemma InstancesMean(p: ProposerState)
    requires InstancesOk(p)
    ensures forall i: InstId :: i in p.metaHash <==> i < p.consInstID
    ensures forall i :: i in p.metaHash ==> InstanceOk(p, i)
    ensures (forall i :: i in p.dataBoo ==> i in p.metaHash) && forall i :: i in p.metaBids ==> i in p.metaHash
    ensures p.rec.Valid() && Flatten(InstanceRanges(p, p.consInstID)) == p.rec.blockIDs[..p.rec.lastIdx]
  {
    assert InstancesHold(p, AreNumbered) && InstancesHold(p, AreDescribed);
    assert InstancesHold(p, AreListed) && InstancesHold(p, AreReadInOrder);
  }

  lemma InstancesAre(p: ProposerState)
    requires forall i: InstId :: i in p.metaHash <==> i < p.consInstID
    requires forall i :: i in p.metaHash ==> InstanceOk(p, i)
    requires (forall i :: i in p.dataBoo ==> i in p.metaHash) && forall i :: i in p.metaBids ==> i in p.metaHash
    requires p.rec.Valid() && Flatten(InstanceRanges(p, p.consInstID)) == p.rec.blockIDs[..p.rec.lastIdx]
    ensures InstancesOk(p)
  {
  }

  ghost predicate SharesOk(s: System)
  {
    && (forall i, sh :: i in s.p.metaSigs && sh in s.p.metaSigs[i] ==> CPAReply(sh.signer, i, sh) in s.sent)
    && (forall l, sh :: l in s.locals && (sh in l.shares || sh == l.mine) ==> CPAReply(sh.signer, l.inst, sh) in s.sent)
    && (forall i :: i in s.commitCerts ==> CommitCertOk(s, i, s.commitCerts[i]))
  }

  // ----- What holds of a validator that is not faulty -----

  /** What it caches of a block is what the proposer has; what it committed was certified and signed by itself. */
  ghost predicate ValidatorOk(s: System, me: ServerId, v: ValidatorState)
  {
    && (forall id :: id in v.ord ==> id in v.cmt && id in s.p.ord && SameBlock(v.ord[id], s.p.ord[id]))
    && (forall id :: id in v.cmt ==> id in s.p.ord && SameBlock(v.cmt[id], s.p.ord[id]))
    && (forall id :: id in v.cmt && v.cmt[id].tSig.Some? ==>
          id in s.orderCerts && v.cmt[id].tSig.value == s.orderCerts[id])
    && (forall i :: i in v.metaHash ==>
          && i in s.p.metaHash && v.metaHash[i] == s.p.metaHash[i] && i in s.p.dataBoo
          && ConsensusShareSent(s, me, i, s.p.dataBoo[i].id, s.p.metaHash[i]))
    && (forall i :: i in v.tokens ==> i in v.metaHash)
    && (forall i :: i in v.committed ==> i in v.metaHash && i in s.commitCerts)
  }

  ghost predicate ValidatorsOk(c: Config, s: System)
  {
    forall v :: v in s.vs ==> v !in c.faulty && ValidatorOk(s, v, s.vs[v])
  }

  datatype Clause =
    | TheRegistry | TheBlocks | TheCerts | TheRecord | TheInstances | TheShares | TheValidators | TheMessages

  ghost predicate Holds(c: Config, s: System, k: Clause)
  {
    match k
    case TheRegistry => RegistryOk(s.p)
    case TheBlocks => BlocksOk(s.p)
    case TheCerts => CertsOk(s)
    case TheRecord => RecordOk(s)
    case TheInstances => InstancesOk(s.p)
    case TheShares => SharesOk(s)
    case TheValidators => ValidatorsOk(c, s)
    case TheMessages => AllSentOk(c, s)
  }

  datatype Part = OfProposer | OfLedger | OfTraffic

  function PartOf(k: Clause): Part
  {
    if k.TheRegistry? || k.TheBlocks? || k.TheInstances? then OfProposer
    else if k.TheCerts? || k.TheRecord? then OfLedger
    else OfTraffic
  }

  ghost predicate InvOf(c: Config, s: System, part: Part)
  {
    forall k :: PartOf(k) == part ==> Holds(c, s, k)
  }

  ghost predicate Inv(c: Config, s: System)
  {
    forall k :: Holds(c, s, k)
  }

  // ----- What a step never takes back -----

  datatype Fact =
    | Sent(m: Msg)
    | Proposed(id: BlockId, hash: Digest, entries: Entries, booth: Booth)
    | Ordered(id: BlockId, cert: Cert)
    | Announces(inst: InstId, hash: Digest)
    | Covers(inst: InstId, range: seq<BlockId>)
    | RunsIn(inst: InstId, booth: Booth)
    | Certified(inst: InstId)
    | Signed(v: ServerId, id: BlockId)

  ghost predicate Known(s: System, f: Fact)
  {
    match f
    case Sent(m) => m in s.sent
    case Proposed(id, hash, entries, booth) =>
      id in s.p.ord && s.p.ord[id].hash == hash && s.p.ord[id].entries == entries && s.p.ord[id].booth == booth
    case Ordered(id, cert) => id in s.orderCerts && s.orderCerts[id] == cert
    case Announces(i, hash) => i in s.p.metaHash && s.p.metaHash[i] == hash
    case Covers(i, range) => i in s.p.metaBids && s.p.metaBids[i] == range
    case RunsIn(i, booth) => i in s.p.dataBoo && s.p.dataBoo[i] == booth
    case Certified(i) => i in s.commitCerts
    case Signed(v, id) => v in s.vs && id in s.vs[v].ord
  }

  ghost predicate Extends(s: System, s': System)
  {
    forall f :: Known(s, f) ==> Known(s', f)
  }

  lemma ExtendsMeans(s: System, s': System)
    requires Extends(s, s')
    ensures s.sent <= s'.sent
    ensures forall id :: id in s.p.ord ==> id in s'.p.ord && SameBlock(s.p.ord[id], s'.p.ord[id])
    ensures forall id :: id in s.orderCerts ==> id in s'.orderCerts && s'.orderCerts[id] == s.orderCerts[id]
    ensures forall i :: i in s.p.metaHash ==> i in s'.p.metaHash && s'.p.metaHash[i] == s.p.metaHash[i]
    ensures forall i :: i in s.p.metaBids ==> i in s'.p.metaBids && s'.p.metaBids[i] == s.p.metaBids[i]
    ensures forall i :: i in s.p.dataBoo ==> i in s'.p.dataBoo && s'.p.dataBoo[i] == s.p.dataBoo[i]
    ensures forall i :: i in s.commitCerts ==> i in s'.commitCerts
    ensures forall v, id :: v in s.vs && id in s.vs[v].ord ==> v in s'.vs && id in s'.vs[v].ord
  {
    forall m | m in s.sent ensures m in s'.sent { assert Known(s, Sent(m)); }
    forall id | id in s.p.ord ensures id in s'.p.ord && SameBlock(s.p.ord[id], s'.p.ord[id]) {
      assert Known(s, Proposed(id, s.p.ord[id].hash, s.p.ord[id].entries, s.p.ord[id].booth));
    }
    forall id | id in s.orderCerts ensures id in s'.orderCerts && s'.orderCerts[id] == s.orderCerts[id] {
      assert Known(s, Ordered(id, s.orderCerts[id]));
    }
    forall i | i in s.p.metaHash ensures i in s'.p.metaHash && s'.p.metaHash[i] == s.p.metaHash[i] {
      assert Known(s, Announces(i, s.p.metaHash[i]));
    }
    forall i | i in s.p.metaBids ensures i in s'.p.metaBids && s'.p.metaBids[i] == s.p.metaBids[i] {
      assert Known(s, Covers(i, s.p.metaBids[i]));
    }
    forall i | i in s.p.dataBoo ensures i in s'.p.dataBoo && s'.p.dataBoo[i] == s.p.dataBoo[i] {
      assert Known(s, RunsIn(i, s.p.dataBoo[i]));
    }
    forall i | i in s.commitCerts ensures i in s'.commitCerts { assert Known(s, Certified(i)); }
    forall v, id | v in s.vs && id in s.vs[v].ord
      ensures v in s'.vs && id in s'.vs[v].ord { assert Known(s, Signed(v, id)); }
  }

  lemma CertStable(s: System, s': System, id: BlockId, cert: Cert)
    requires Extends(s, s') && OrderCertOk(s, id, cert)
    ensures OrderCertOk(s', id, cert)
  {
    ExtendsMeans(s, s');
    forall v | v in cert.signers ensures OrderShareSent(s', v, id, cert.boothId, cert.digest) {
      assert OrderShareSent(s, v, id, cert.boothId, cert.digest);
    }
  }

  lemma CommitCertStable(s: System, s': System, inst: InstId, cert: Cert)
    requires Extends(s, s') && CommitCertOk(s, inst, cert)
    ensures CommitCertOk(s', inst, cert)
  {
    ExtendsMeans(s, s');
    forall v | v in cert.signers ensures ConsensusShareSent(s', v, inst, cert.boothId, cert.digest) {
      assert ConsensusShareSent(s, v, inst, cert.boothId, cert.digest);
    }
  }

  lemma HashesStable(s: System, s': System, bids: seq<BlockId>)
    requires Extends(s, s') && forall b :: b in bids ==> b in s.p.ord
    ensures HashesOf(s'.p.ord, bids) == HashesOf(s.p.ord, bids)
  {
    ExtendsMeans(s, s');
  }

  lemma MsgStable(c: Config, s: System, s': System, m: Msg)
    requires Extends(s, s') && MsgOk(c, s, m)
    ensures MsgOk(c, s', m)
  {
    ExtendsMeans(s, s');
    match m {
      case CPA(to, e) =>
        forall b | b in e.bids ensures Provided(s', to, e.prev, b) {
          assert Provided(s, to, e.prev, b);
        }
        HashesStable(s, s', e.bids);
        forall r | r in e.prev ensures ResentOk(s', r) {
          assert ResentOk(s, r);
        }
      case CPB(to, booth, inst, comSig, hash) => CommitCertStable(s, s', inst, comSig);
      case _ =>
    }
  }

  lemma ValidatorStable(s: System, s': System, me: ServerId, v: ValidatorState)
    requires ValidatorOk(s, me, v) && Extends(s, s')
    ensures ValidatorOk(s', me, v)
  {
    ExtendsMeans(s, s');
    forall i | i in v.metaHash ensures ConsensusShareSent(s', me, i, s'.p.dataBoo[i].id, s'.p.metaHash[i]) {
      assert ConsensusShareSent(s, me, i, s.p.dataBoo[i].id, s.p.metaHash[i]);
    }
  }

  lemma ValidatorsStable(c: Config, s: System, s': System)
    requires ValidatorsOk(c, s) && Extends(s, s')
    ensures forall v :: v in s.vs ==> v !in c.faulty && ValidatorOk(s', v, s.vs[v])
  {
    forall v | v in s.vs ensures v !in c.faulty && ValidatorOk(s', v, s.vs[v]) {
      ValidatorStable(s, s', v, s.vs[v]);
    }
  }

  lemma OrderCertsStable(s: System, s': System)
    requires CertsOk(s) && Extends(s, s')
    ensures forall id :: id in s.orderCerts ==> OrderCertOk(s', id, s.orderCerts[id])
  {
    forall id | id in s.orderCerts ensures OrderCertOk(s', id, s.orderCerts[id]) {
      CertStable(s, s', id, s.orderCerts[id]);
    }
  }

  lemma CommitCertsStable(s: System, s': System)
    requires SharesOk(s) && Extends(s, s')
    ensures forall i :: i in s.commitCerts ==> CommitCertOk(s', i, s.commitCerts[i])
  {
    forall i | i in s.commitCerts ensures CommitCertOk(s', i, s.commitCerts[i]) {
      CommitCertStable(s, s', i, s.commitCerts[i]);
    }
  }
}
