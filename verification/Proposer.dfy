/**
 * The proposer's handlers on its caches: block proposal, ordering replies, consensus rounds and
 * consensus replies (vordering.go:54-154, vordering.go:268-373, vconsensus.go:7-275). One blockchain ID,
 * that of the only proposer that runs them (connsprop.go:118-124).
 */
module Proposers {
  import opened Types
  import opened Signatures
  import opened IdRecorders
  import opened BoothRegistry
  import opened Instances

  /** ordSnapshot, cmtSnapshot, vgrec, vgTxMeta and vgTxData of cache.go, with the registry and the counters. */
  datatype ProposerState = ProposerState(
    reg: Registry, rec: Recorder, logIndex: nat, consInstID: InstId,
    ord: Cache, cmt: Cache,
    metaHash: map<InstId, Digest>, metaBids: map<InstId, seq<BlockId>>, metaSigs: map<InstId, seq<Share>>,
    dataTx: map<InstId, TxStore>, dataBoo: map<InstId, Booth>)

  const INITIAL_PROPOSER := ProposerState(EMPTY_REGISTRY, Recorder([], 0), 0, 0, map[], map[], map[], map[], map[],
                                          map[], map[])

  /** The booth that a looked-up ID denotes. */
  function BoothAt(reg: Registry, id: nat): Booth
  {
    if id < |reg.b| then reg.b[id] else Booth(id, [])
  }

  /** A new block: both snapshots are taken before it is sent out (vordering.go:69-141). */
  ghost function ProposeStep(p: ProposerState, pattern: seq<ServerId>, entries: Entries): (ProposerState, Booth)
  {
    var (reg, boothId) := Lookup(p.reg, pattern);
    var booth := BoothAt(reg, boothId);
    var snapshot := Snapshot(OfBlock(entries), entries, [], None, booth);
    (p.(reg := reg, logIndex := p.logIndex + 1,
        ord := p.ord[p.logIndex := snapshot], cmt := p.cmt[p.logIndex := snapshot]),
     booth)
  }

  lemma ProposedAs(p: ProposerState, p': ProposerState, pattern: seq<ServerId>, entries: Entries, boothId: nat)
    requires Lookup(p.reg, pattern) == (p'.reg, boothId)
    requires var snapshot := Snapshot(OfBlock(entries), entries, [], None, BoothAt(p'.reg, boothId));
             && p'.ord == p.ord[p.logIndex := snapshot] && p'.cmt == p.cmt[p.logIndex := snapshot]
             && p' == p.(reg := p'.reg, logIndex := p.logIndex + 1, ord := p'.ord, cmt := p'.cmt)
    ensures ProposeStep(p, pattern, entries) == (p', BoothAt(p'.reg, boothId))
  {
  }

  /** An ordering reply, up to the recording of the block ID; the handler keeps the recovered signature. */
  ghost function OrderReplyStep(p: ProposerState, id: BlockId, share: Share): (ProposerState, Option<Cert>)
  {
    if id !in p.ord then (p, None)
    else
      var frag := p.ord[id];
      var threshold := GetThreshold(|frag.booth.indices|);
      if |frag.sigs| == threshold then (p, None)
      else
        var sigs := frag.sigs + [share];
        var p1 := p.(ord := p.ord[id := frag.(sigs := sigs)]);
        if |sigs| != threshold then (p1, None)
        else
          var cert := PenRecovery(sigs, frag.hash, frag.booth.id, |frag.booth.indices|);
          if cert.None? then (p1, None)
          else (p1.(rec := Recorder(p.rec.blockIDs + [id], p.rec.lastIdx)), cert)
  }

  /** The later lock section that stores the combined signature before it is sent out (vordering.go:360-362). */
  function StoreSigStep(p: ProposerState, id: BlockId, cert: Cert): ProposerState
  {
    if id in p.cmt then p.(cmt := p.cmt[id := p.cmt[id].(tSig := Some(cert))]) else p
  }

  /** The entry announced to commit-booth member v: new members get the resent blocks (vconsensus.go:138-183). */
  function EntryFor(e: CpaEntry, resent: seq<OpbEntry>, newMembers: seq<ServerId>, v: ServerId): CpaEntry
  {
    if v in newMembers then e.(prev := resent) else e
  }

  /** What a consensus round sends out. */
  datatype Announced = Announced(entry: CpaEntry, resent: seq<OpbEntry>, newMembers: seq<ServerId>)

  /** The instance over a non-empty range; a nameless booth ends it before it is announced. */
  ghost function AnnounceStep(p: ProposerState, booth: Booth, range: seq<BlockId>): (ProposerState, Option<Announced>)
  {
    var c := Collect(p.cmt, booth.indices, range);
    var i := p.consInstID;
    var p1 := p.(dataTx := p.dataTx[i := c.tx], dataBoo := if c.stored then p.dataBoo[i := booth] else p.dataBoo);
    if !c.ok then (p1, None)
    else
      var totalHash := OfRange(c.range);
      (p1.(consInstID := i + 1, metaHash := p.metaHash[i := totalHash], metaBids := p.metaBids[i := range]),
       Some(Announced(CpaEntry([], booth, range, i, c.range, totalHash), c.resent, c.newMembers)))
  }

  /** An instance is announced unless a cached block has a booth without members; then nothing is announced of it. */
  lemma AnnouncesUnlessNameless(p: ProposerState, booth: Booth, range: seq<BlockId>)
    ensures var (p', out) := AnnounceStep(p, booth, range);
            && (out.Some? <==> forall b :: b in range && b in p.cmt ==> p.cmt[b].booth.indices != [])
            && (out.None? ==> p' == p.(dataTx := p'.dataTx, dataBoo := p'.dataBoo))
  {
    CollectsUnlessNameless(p.cmt, booth.indices, range);
  }

  /** Announced are the hashes of the cached blocks, in the commit booth and under the next instance ID. */
  lemma AnnouncedEntry(p: ProposerState, booth: Booth, range: seq<BlockId>)
    requires AnnounceStep(p, booth, range).1.Some?
    ensures var (p', out), hashes := AnnounceStep(p, booth, range), HashesOf(p.cmt, range);
            && out.value.entry == CpaEntry([], booth, range, p.consInstID, hashes, OfRange(hashes))
            && p'.consInstID == p.consInstID + 1
            && p'.metaHash == p.metaHash[p.consInstID := OfRange(hashes)]
            && p'.metaBids == p.metaBids[p.consInstID := range]
  {
    CollectsHashes(p.cmt, booth.indices, range);
  }

  /** Stored under that ID are the content of the cached blocks and, if there is one, the commit booth. */
  lemma AnnouncedContent(p: ProposerState, booth: Booth, range: seq<BlockId>)
    requires AnnounceStep(p, booth, range).1.Some?
    ensures var p', i := AnnounceStep(p, booth, range).0, p.consInstID;
            && p'.dataTx == p.dataTx[i := TxOf(p.cmt, range)]
            && p'.dataBoo == (if exists b :: b in range && b in p.cmt then p.dataBoo[i := booth] else p.dataBoo)
  {
    var n := CollectStores(p.cmt, booth.indices, range);
    assert range[..|range|] == range;
  }

  /** One turn of the consensus loop. */
  ghost function ConsensusStep(p: ProposerState, pattern: seq<ServerId>): (ProposerState, Option<Announced>)
    requires p.rec.Valid()
  {
    var (reg, boothId) := Lookup(p.reg, pattern);
    var range := p.rec.Unread();
    var p1 := p.(reg := reg, rec := Recorder(p.rec.blockIDs, |p.rec.blockIDs|));
    if range == [] then (p1, None) else AnnounceStep(p1, BoothAt(reg, boothId), range)
  }

  function SigsOf(p: ProposerState, inst: InstId): seq<Share>
  {
    if inst in p.metaSigs then p.metaSigs[inst] else []
  }

  function ResidingBooth(p: ProposerState, inst: InstId): Booth
  {
    if inst in p.dataBoo then p.dataBoo[inst] else Booth(0, [])
  }

  /** The read section of a consensus reply: the list to append to, unless it is full (vconsensus.go:195-216). */
  function ReadSharesStep(p: ProposerState, inst: InstId): Option<seq<Share>>
  {
    if inst !in p.metaHash || |SigsOf(p, inst)| == GetThreshold(|ResidingBooth(p, inst).indices|) then None
    else Some(SigsOf(p, inst))
  }

  /** The write-back section, and recovery when the list is complete (vconsensus.go:218-247). */
  ghost function WriteSharesStep(p: ProposerState, inst: InstId, local: seq<Share>, share: Share)
    : (ProposerState, Option<Cert>)
    requires inst in p.metaHash
  {
    var sigs := local + [share];
    var booth := ResidingBooth(p, inst);
    var p1 := p.(metaSigs := p.metaSigs[inst := sigs]);
    if |sigs| != GetThreshold(|booth.indices|) then (p1, None)
    else (p1, PenRecovery(sigs, p.metaHash[inst], booth.id, |booth.indices|))
  }

  // ----- Exactly when recovery happens -----

  function Threshold(b: Booth): nat
  {
    GetThreshold(|b.indices|)
  }

  /** The share that completes the list recovers the signature if and only if all shares are good. */
  lemma OrderReplyExactly(p: ProposerState, id: BlockId, share: Share)
    ensures var (p', cert) := OrderReplyStep(p, id, share);
            if id in p.ord && |p.ord[id].sigs| != Threshold(p.ord[id].booth) then
              var f := p.ord[id];
              var sigs := f.sigs + [share];
              && p' == p.(ord := p.ord[id := f.(sigs := sigs)], rec := p'.rec) && p'.rec.lastIdx == p.rec.lastIdx
              && (cert.Some? <==> |sigs| == Threshold(f.booth) && ValidShares(sigs, f.booth.id, f.hash))
              && (cert.Some? ==> cert.value == Cert(f.booth.id, f.hash, Signers(sigs)))
              && p'.rec.blockIDs == p.rec.blockIDs + if cert.Some? then [id] else []
            else p' == p && cert == None
  {
  }

  /** What a list of at most `threshold` shares comes to: the certificates recovered from it. */
  ghost function CertsOf(shares: seq<Share>, booth: Booth, hash: Digest): seq<Cert>
  {
    if 1 <= Threshold(booth) <= |shares| && ValidShares(shares[..Threshold(booth)], booth.id, hash)
    then [Cert(booth.id, hash, Signers(shares[..Threshold(booth)]))]
    else []
  }

  /** The first `threshold` of the shares, or all if there are fewer. */
  function FirstShares(shares: seq<Share>, threshold: nat): seq<Share>
  {
    if |shares| <= threshold then shares else shares[..threshold]
  }

  lemma OneMoreShare(shares: seq<Share>, booth: Booth, hash: Digest)
    requires shares != []
    ensures var n, t := |shares| - 1, Threshold(booth);
            && FirstShares(shares, t)
               == (if n < t then FirstShares(shares[..n], t) + [shares[n]] else FirstShares(shares[..n], t))
            && CertsOf(shares, booth, hash)
               == (if n + 1 == t then CertsOf(shares, booth, hash) else CertsOf(shares[..n], booth, hash))
            && (n < t ==> CertsOf(shares[..n], booth, hash) == [])
  {
    var n, t := |shares| - 1, Threshold(booth);
    assert shares[..n] + [shares[n]] == shares;
    if t <= n {
      assert shares[..n][..t] == shares[..t];
    }
  }

  /** The ordering replies for one block, handled one after the other, and what is recovered on the way. */
  ghost function TakeReplies(p: ProposerState, id: BlockId, shares: seq<Share>): (ProposerState, seq<Cert>)
  {
    if shares == [] then (p, [])
    else
      var n := |shares| - 1;
      var (q, certs) := TakeReplies(p, id, shares[..n]);
      var (r, cert) := OrderReplyStep(q, id, shares[n]);
      (r, certs + if cert.Some? then [cert.value] else [])
  }

  /** The replies handled so far have left state q: the first `threshold` kept, and recorded once if certified. */
  ghost predicate RepliesLeft(p: ProposerState, q: ProposerState, certs: seq<Cert>, id: BlockId, shares: seq<Share>)
    requires id in p.ord
  {
    var f := p.ord[id];
    && q.ord == p.ord[id := f.(sigs := FirstShares(shares, Threshold(f.booth)))]
    && certs == CertsOf(shares, f.booth, f.hash)
    && q.rec.blockIDs == p.rec.blockIDs + seq(|certs|, _ => id)
  }

  lemma OneMoreReply(p: ProposerState, q: ProposerState, certs: seq<Cert>, id: BlockId, shares: seq<Share>)
    requires id in p.ord && shares != [] && RepliesLeft(p, q, certs, id, shares[..|shares| - 1])
    ensures var (r, cert) := OrderReplyStep(q, id, shares[|shares| - 1]);
            RepliesLeft(p, r, certs + if cert.Some? then [cert.value] else [], id, shares)
  {
    OrderReplyExactly(q, id, shares[|shares| - 1]);
    OneMoreShare(shares, p.ord[id].booth, p.ord[id].hash);
    assert shares[..|shares|] == shares;
  }

  /**
   * In a booth of any size: the list keeps the first `threshold` shares. If they are that many, valid and of
   * distinct signers, the last of them certifies the block and has it recorded, once; otherwise it never is.
   */
  lemma {:induction false} RepliesExactly(p: ProposerState, id: BlockId, shares: seq<Share>)
    requires id in p.ord && p.ord[id].sigs == []
    ensures var (q, certs), f := TakeReplies(p, id, shares), p.ord[id];
            && q.ord == p.ord[id := f.(sigs := FirstShares(shares, Threshold(f.booth)))]
            && certs == CertsOf(shares, f.booth, f.hash)
            && q.rec.blockIDs == p.rec.blockIDs + seq(|certs|, _ => id)
  {
    if shares == [] {
      assert p.ord[id := p.ord[id].(sigs := [])] == p.ord;
    } else {
      var n := |shares| - 1;
      RepliesExactly(p, id, shares[..n]);
      var (q, certs) := TakeReplies(p, id, shares[..n]);
      OneMoreReply(p, q, certs, id, shares);
    }
  }

  /** A consensus reply whose two sections run without another in between. */
  ghost function ReplyTurn(p: ProposerState, inst: InstId, share: Share): (ProposerState, Option<Cert>)
  {
    var local := ReadSharesStep(p, inst);
    if local.None? || inst !in p.metaHash then (p, None) else WriteSharesStep(p, inst, local.value, share)
  }

  /** The list written back is stored; it recovers the signature if and only if it is full and its shares are good. */
  lemma WriteSharesExactly(p: ProposerState, inst: InstId, local: seq<Share>, share: Share)
    requires inst in p.metaHash
    ensures var (p', cert) := WriteSharesStep(p, inst, local, share);
            var booth, sigs := ResidingBooth(p, inst), local + [share];
            && p' == p.(metaSigs := p.metaSigs[inst := sigs])
            && (cert.Some? <==> |sigs| == Threshold(booth) && ValidShares(sigs, booth.id, p.metaHash[inst]))
            && (cert.Some? ==> cert.value == Cert(booth.id, p.metaHash[inst], Signers(sigs)))
  {
  }

  ghost function TakeTurns(p: ProposerState, inst: InstId, shares: seq<Share>): (ProposerState, seq<Cert>)
  {
    if shares == [] then (p, [])
    else
      var n := |shares| - 1;
      var (q, certs) := TakeTurns(p, inst, shares[..n]);
      var (r, cert) := ReplyTurn(q, inst, shares[n]);
      (r, certs + if cert.Some? then [cert.value] else [])
  }

  /** The turns taken so far have left state q. */
  ghost predicate TurnsLeft(p: ProposerState, q: ProposerState, certs: seq<Cert>, inst: InstId, shares: seq<Share>)
    requires inst in p.metaHash
  {
    var booth := ResidingBooth(p, inst);
    && q == p.(metaSigs := q.metaSigs) && SigsOf(q, inst) == FirstShares(shares, Threshold(booth))
    && certs == CertsOf(shares, booth, p.metaHash[inst])
  }

  lemma OneMoreTurn(p: ProposerState, q: ProposerState, certs: seq<Cert>, inst: InstId, shares: seq<Share>)
    requires inst in p.metaHash && shares != [] && TurnsLeft(p, q, certs, inst, shares[..|shares| - 1])
    ensures var (r, cert) := ReplyTurn(q, inst, shares[|shares| - 1]);
            TurnsLeft(p, r, certs + if cert.Some? then [cert.value] else [], inst, shares)
  {
    assert ResidingBooth(q, inst) == ResidingBooth(p, inst);
    WriteSharesExactly(q, inst, SigsOf(q, inst), shares[|shares| - 1]);
    OneMoreShare(shares, ResidingBooth(p, inst), p.metaHash[inst]);
    assert shares[..|shares|] == shares;
  }

  /**
   * In a commit booth of any size: consensus replies that are read and written back in turn leave the first
   * `threshold` shares stored. If they are that many, valid and of distinct signers, the last of them gives the
   * commit certificate, and no other does; otherwise none does.
   */
  lemma {:induction false} TurnsExactly(p: ProposerState, inst: InstId, shares: seq<Share>)
    requires inst in p.metaHash && SigsOf(p, inst) == []
    ensures var (q, certs), booth := TakeTurns(p, inst, shares), ResidingBooth(p, inst);
            && q == p.(metaSigs := q.metaSigs) && SigsOf(q, inst) == FirstShares(shares, Threshold(booth))
            && certs == CertsOf(shares, booth, p.metaHash[inst])
  {
    if shares != [] {
      var n := |shares| - 1;
      TurnsExactly(p, inst, shares[..n]);
      var (q, certs) := TakeTurns(p, inst, shares[..n]);
      OneMoreTurn(p, q, certs, inst, shares);
    }
  }

  /** The shares as the library checks them before it combines them (tsigs.go:198-207). */
  method Recover(shares: seq<Share>, hash: Digest, boothId: nat, boothSize: nat) returns (cert: Option<Cert>)
    ensures cert == PenRecovery(shares, hash, boothId, boothSize)
  {
    var signers: set<ServerId> := {};
    var i := 0;
    while i < |shares|
      invariant 0 <= i <= |shares|
      invariant signers == Signers(shares[..i]) && ValidShares(shares[..i], boothId, hash)
    {
      var s := shares[i];
      assert shares[..i + 1] == shares[..i] + [s];
      if !ValidShare(s, boothId, hash) {
        return None;
      }
      if s.signer in signers {
        assert exists j :: 0 <= j < i && shares[..i][j].signer == s.signer;
        return None;
      }
      signers := signers + {s.signer};
      i := i + 1;
    }
    assert shares[..i] == shares;
    cert := if |shares| == GetThreshold(boothSize) then Some(Cert(boothId, hash, signers)) else None;
  }

  class Proposer {
    const self: ServerId
    const booMgr: BoothManager
    const vgrec: IdRecorder
    var logIndex: nat
    var consInstID: InstId
    var ordSnapshot: Cache
    var cmtSnapshot: Cache
    var metaHash: map<InstId, Digest>
    var metaBlockIDs: map<InstId, seq<BlockId>>
    var metaSigs: map<InstId, seq<Share>>
    var dataTx: map<InstId, map<string, seq<seq<Entry>>>>
    var dataBoo: map<InstId, Booth>

    ghost predicate Valid()
      reads this, booMgr, vgrec
    {
      booMgr.View().Valid() && vgrec.Valid()
    }

    ghost function View(): ProposerState
      reads this, booMgr, vgrec
    {
      ProposerState(booMgr.View(), vgrec.View(), logIndex, consInstID, ordSnapshot, cmtSnapshot,
                    metaHash, metaBlockIDs, metaSigs, StoreViews(dataTx), dataBoo)
    }

    constructor (self: ServerId)
      ensures Valid() && View() == INITIAL_PROPOSER && this.self == self
    {
      this.self := self;
      booMgr := new BoothManager();
      vgrec := new IdRecorder();
      logIndex, consInstID := 0, 0;
      ordSnapshot, cmtSnapshot := map[], map[];
      metaHash, metaBlockIDs, metaSigs, dataTx, dataBoo := map[], map[], map[], map[], map[];
    }

    /** The protocol half of makeAndBroadcast, for the entries cut from the shuffle buffer. */
    method ProposeBlock(vehicles: seq<ServerId>, entries: Entries) returns (booth: Booth, id: BlockId, hash: Digest)
      requires Valid()
      modifies this, booMgr
      ensures Valid() && (View(), booth) == ProposeStep(old(View()), [self] + vehicles, entries)
      ensures id == old(logIndex) && logIndex == id + 1 && hash == OfBlock(entries)
      ensures ordSnapshot == old(ordSnapshot)[id := Snapshot(hash, entries, [], None, booth)]
      ensures cmtSnapshot == old(cmtSnapshot)[id := Snapshot(hash, entries, [], None, booth)]
      ensures booth == BoothAt(View().reg, booth.id) && Key(booth.indices) == Key(SortInts([self] + vehicles))
    {
      var orderingBoothID := booMgr.CheckExactMatch([self] + vehicles);
      booth := booMgr.b[orderingBoothID];
      hash := OfBlock(entries);
      id := TakeSnapshots(hash, entries, booth);
      ProposedAs(old(View()), View(), [self] + vehicles, entries, orderingBoothID);
    }

    /** The next block ID is used up by a snapshot in both caches (vordering.go:99-126). */
    method TakeSnapshots(hash: Digest, entries: Entries, booth: Booth) returns (id: BlockId)
      modifies this
      ensures id == old(logIndex)
      ensures var s := Snapshot(hash, entries, [], None, booth);
              View() == old(View()).(logIndex := id + 1, ord := old(ordSnapshot)[id := s],
                                     cmt := old(cmtSnapshot)[id := s])
    {
      id := logIndex;
      logIndex := logIndex + 1;
      ordSnapshot := ordSnapshot[id := Snapshot(hash, entries, [], None, booth)];
      cmtSnapshot := cmtSnapshot[id := Snapshot(hash, entries, [], None, booth)];
    }

    method HandleOBReply(id: BlockId, share: Share) returns (cert: Option<Cert>)
      requires Valid()
      modifies this, vgrec
      ensures Valid() && (View(), cert) == OrderReplyStep(old(View()), id, share)
      ensures cert.Some? <==> id in old(ordSnapshot)
                              && var s := old(ordSnapshot)[id];
                                 && |s.sigs| + 1 == Threshold(s.booth)
                                 && ValidShares(s.sigs + [share], s.booth.id, s.hash)
      ensures cert.Some? ==> id in ordSnapshot && |cert.value.signers| == Threshold(ordSnapshot[id].booth)
      ensures ordSnapshot == old(if id in ordSnapshot && |ordSnapshot[id].sigs| != Threshold(ordSnapshot[id].booth)
                                 then ordSnapshot[id := ordSnapshot[id].(sigs := ordSnapshot[id].sigs + [share])]
                                 else ordSnapshot)
      ensures vgrec.blockIDs == if cert.Some? then old(vgrec.blockIDs) + [id] else old(vgrec.blockIDs)
    {
      if id !in ordSnapshot {
        return None;
      }
      var frag := ordSnapshot[id];
      var indicator := |frag.sigs|;
      var threshold := GetThreshold(|frag.booth.indices|);
      if indicator == threshold {
        return None;
      }
      indicator := indicator + 1;
      var aggregatedSigs := frag.sigs + [share];
      ordSnapshot := ordSnapshot[id := frag.(sigs := aggregatedSigs)];
      if indicator < threshold {
        return None;
      }
      if indicator > threshold {
        return None;
      }
      cert := Recover(aggregatedSigs, frag.hash, frag.booth.id, |frag.booth.indices|);
      if cert.None? {
        return None;
      }
      RecoveredQuorum(aggregatedSigs, frag.hash, frag.booth.id, |frag.booth.indices|);
      vgrec.Record(id);
    }

    /** The recipients are those of the registry's booth with the snapshot's booth ID (vordering.go:366-368). */
    method StoreOrderSig(id: BlockId, cert: Cert) returns (booth: Booth)
      requires Valid() && id in ordSnapshot && id in cmtSnapshot
      modifies this
      ensures Valid() && View() == StoreSigStep(old(View()), id, cert)
      ensures booth == BoothAt(View().reg, old(ordSnapshot)[id].booth.id)
      ensures ordSnapshot == old(ordSnapshot)
      ensures cmtSnapshot == old(cmtSnapshot[id := cmtSnapshot[id].(tSig := Some(cert))])
    {
      cmtSnapshot := cmtSnapshot[id := cmtSnapshot[id].(tSig := Some(cert))];
      var boothId := ordSnapshot[id].booth.id;
      booth := if boothId < |booMgr.b| then booMgr.b[boothId] else Booth(boothId, []);
    }

    method ConsensusRound(vehicles: seq<ServerId>) returns (out: Option<Announced>)
      requires Valid()
      modifies this, booMgr, vgrec
      ensures Valid() && (View(), out) == ConsensusStep(old(View()), [self] + vehicles)
      ensures vgrec.View().Unread() == [] && (old(vgrec.View().Unread()) == [] ==> out == None)
      ensures out.Some? ==>
                out.value.entry.bids == old(vgrec.View().Unread()) && out.value.entry.inst == old(consInstID)
    {
      var commitBoothID := booMgr.CheckExactMatch([self] + vehicles);
      var commitBooth := booMgr.b[commitBoothID];
      var blockIDRange := vgrec.GetIDRange();
      if blockIDRange == [] {
        return None;
      }
      out := AnnounceRange(commitBooth, blockIDRange);
    }

    method AnnounceRange(commitBooth: Booth, blockIDRange: seq<BlockId>) returns (out: Option<Announced>)
      requires Valid()
      modifies this
      ensures Valid() && (View(), out) == AnnounceStep(old(View()), commitBooth, blockIDRange)
      ensures out.Some? ==> out.value.entry.bids == blockIDRange && out.value.entry.inst == old(consInstID)
      ensures consInstID == if out.Some? then old(consInstID) + 1 else old(consInstID)
      ensures ordSnapshot == old(ordSnapshot) && cmtSnapshot == old(cmtSnapshot) && metaSigs == old(metaSigs)
    {
      var c, store := CollectRange(commitBooth.indices, blockIDRange);
      StoreViewsUpdate(dataTx, consInstID, store);
      dataTx := dataTx[consInstID := store];
      if c.stored {
        dataBoo := dataBoo[consInstID := commitBooth];
      }
      if !c.ok {
        return None;
      }
      var totalHash := OfRange(c.range);
      var entryCA := CpaEntry([], commitBooth, blockIDRange, consInstID, c.range, totalHash);
      metaHash := metaHash[consInstID := totalHash];
      metaBlockIDs := metaBlockIDs[consInstID := blockIDRange];
      consInstID := consInstID + 1;
      out := Some(Announced(entryCA, c.resent, c.newMembers));
    }

    /** The first lock section of a consensus reply's handler. */
    method ReadShares(inst: InstId) returns (local: Option<seq<Share>>)
      ensures local == ReadSharesStep(View(), inst)
      ensures var stored := if inst in metaSigs then metaSigs[inst] else [];
              local == if inst in metaHash && |stored| != Threshold(ResidingBooth(View(), inst))
                       then Some(stored) else None
    {
      if inst !in metaHash {
        return None;
      }
      var partialSig := if inst in metaSigs then metaSigs[inst] else [];
      var residingBooth := if inst in dataBoo then dataBoo[inst] else Booth(0, []);
      if |partialSig| == GetThreshold(|residingBooth.indices|) {
        return None;
      }
      local := Some(partialSig);
    }

    /** The rest of it, on the list read before. */
    method WriteShares(inst: InstId, local: seq<Share>, share: Share) returns (cert: Option<Cert>)
      requires inst in metaHash
      modifies this
      ensures (View(), cert) == WriteSharesStep(old(View()), inst, local, share)
      ensures metaSigs == old(metaSigs)[inst := local + [share]]
      ensures var booth := ResidingBooth(old(View()), inst);
              cert.Some? <==> |local| + 1 == Threshold(booth) && ValidShares(local + [share], booth.id, metaHash[inst])
      ensures cert.Some? ==> |cert.value.signers| == |local| + 1 && cert.value.digest == metaHash[inst]
    {
      var fetchedTotalHash := metaHash[inst];
      var residingBooth := if inst in dataBoo then dataBoo[inst] else Booth(0, []);
      var threshold := GetThreshold(|residingBooth.indices|);
      var partialSig := local + [share];
      metaSigs := metaSigs[inst := partialSig];
      if |partialSig| < threshold {
        return None;
      } else if |partialSig| > threshold {
        return None;
      }
      cert := Recover(partialSig, fetchedTotalHash, residingBooth.id, |residingBooth.indices|);
      if cert.Some? {
        RecoveredQuorum(partialSig, fetchedTotalHash, residingBooth.id, |residingBooth.indices|);
      }
    }

    /** The loop over the range (vconsensus.go:63-126); `store` holds the entry lists, c.tx their bags. */
    method CollectRange(commit: seq<ServerId>, bids: seq<BlockId>)
      returns (c: Collected, store: map<string, seq<seq<Entry>>>)
      ensures c == Collect(cmtSnapshot, commit, bids) && StoreView(store) == c.tx
    {
      var range: map<BlockId, Digest> := map[];
      var newMembers: seq<ServerId> := [];
      var resent: seq<OpbEntry> := [];
      var stored := false;
      store := map[];
      var n := 0;
      while n < |bids|
        invariant 0 <= n <= |bids|
        invariant Collect(cmtSnapshot, commit, bids[..n]) == Collected(range, newMembers, resent, StoreView(store),
                                                                       stored, true)
      {
        var b := bids[n];
        assert bids[..n + 1][..n] == bids[..n] && bids[..n + 1][n] == b;
        n := n + 1;
        if b !in cmtSnapshot {
          continue;
        }
        var frag := cmtSnapshot[b];
        range := range[b := frag.hash];
        var blockEntries := ListEntries(frag.entries);
        var newMemberFlag;
        newMembers, newMemberFlag := AddNewMembers(newMembers, commit, frag.booth.indices);
        if newMemberFlag {
          resent := resent + [OpbEntry(frag.booth, b, frag.tSig, frag.entries, frag.hash)];
        }
        var boo := BoothName(frag.booth);
        if boo.None? {
          c := Collected(range, newMembers, resent, StoreView(store), stored, false);
          CollectStops(cmtSnapshot, commit, bids, n);
          return;
        }
        store := StoreBlock(store, boo.value, blockEntries);
        stored := true;
      }
      assert bids[..n] == bids;
      c := Collected(range, newMembers, resent, StoreView(store), stored, true);
    }
  }

  /** The nested loop over the commit booth (vconsensus.go:88-97). */
  method AddNewMembers(known: seq<ServerId>, commit: seq<ServerId>, ordering: seq<ServerId>)
    returns (newMembers: seq<ServerId>, flag: bool)
    ensures newMembers == AddMissing(known, commit, ordering)
    ensures flag <==> SomeMissing(commit, ordering)
  {
    newMembers, flag := known, false;
    for i := 0 to |commit|
      invariant newMembers == AddMissing(known, commit[..i], ordering)
      invariant flag <==> SomeMissing(commit[..i], ordering)
    {
      var m := commit[i];
      assert commit[..i + 1] == commit[..i] + [m] && commit[..i + 1][..i] == commit[..i];
      if m !in ordering {
        flag := true;
        if m !in newMembers {
          newMembers := newMembers + [m];
        }
      }
    }
    assert commit[..|commit|] == commit;
  }

  /** Once the collection has stopped, the rest of the range changes nothing. */
  lemma {:induction false} CollectStops(cmt: Cache, commit: seq<ServerId>, bids: seq<BlockId>, n: nat)
    requires n <= |bids| && !Collect(cmt, commit, bids[..n]).ok
    ensures Collect(cmt, commit, bids) == Collect(cmt, commit, bids[..n])
  {
    if n == |bids| {
      assert bids[..n] == bids;
    } else {
      var init := bids[..|bids| - 1];
      assert init[..n] == bids[..n];
      CollectStops(cmt, commit, init, n);
    }
  }
}
