/**
 * How the protocol gets on, for booths of any size: correct members answer what they are sent, and enough
 * answers make a certificate.
 */
module ProtocolProgress {
  import opened Types
  import opened Signatures
  import opened Proposers
  import opened Validators
  import opened Protocol
  import opened ProtocolSteps
  import opened ProtocolTheorems

  /** A correct member that is sent a block for the first time answers with its share on what was proposed. */
  lemma OrderRequestAnswered(c: Config, s: System, m: Msg)
    requires Reachable(c, s) && Enabled(c, s, Validate(m)) && m.OPA?
    ensures m.id in s.p.ord
    ensures var s' := Next(c, s, Validate(m));
            && s'.p == s.p && m.id in ValidatorOf(s', m.to).ord
            && s'.sent == s.sent + if m.id in ValidatorOf(s, m.to).ord then {} else {OrderReply(s, m.id, m.to)}
  {
    ReachableInv(c, s);
    MsgHolds(c, s, m);
  }

  /** Likewise for an instance, unless the member's job channel for it is taken. */
  lemma InstanceRequestAnswered(c: Config, s: System, m: Msg)
    requires Reachable(c, s) && Enabled(c, s, Validate(m)) && m.CPA?
    ensures m.cpa.inst in s.p.metaHash && m.cpa.inst in s.p.dataBoo
    ensures var s', i := Next(c, s, Validate(m)), m.cpa.inst;
            && s'.p == s.p && i in ValidatorOf(s', m.to).tokens
            && s'.sent == s.sent + if i in ValidatorOf(s, m.to).tokens then {} else {InstanceReply(s, i, m.to)}
  {
    ReachableInv(c, s);
    MsgHolds(c, s, m);
    ContentAgreement(c, s, m);
    CheckOutcome(ValidatorOf(s, m.to), m.cpa);
  }

  function OrderReply(s: System, b: BlockId, v: ServerId): Msg
    requires b in s.p.ord
  {
    OPAReply(v, b, OrderShare(s.p, b, v))
  }

  function OrderShare(p: ProposerState, b: BlockId, v: ServerId): Share
    requires b in p.ord
  {
    Share(v, p.ord[b].booth.id, p.ord[b].hash)
  }

  function InstanceReply(s: System, i: InstId, v: ServerId): Msg
    requires i in s.p.metaHash
  {
    CPAReply(v, i, InstanceShare(s.p, i, v))
  }

  function InstanceShare(p: ProposerState, i: InstId, v: ServerId): Share
    requires i in p.metaHash
  {
    Share(v, ResidingBooth(p, i).id, p.metaHash[i])
  }

  // ----- Ordering -----

  function OrderShares(p: ProposerState, b: BlockId, from: seq<ServerId>): seq<Share>
    requires b in p.ord
  {
    seq(|from|, i requires 0 <= i < |from| => OrderShare(p, b, from[i]))
  }

  /** The replies of the servers in `from` are handled one after the other. */
  ghost function AfterOrderReplies(s: System, b: BlockId, shares: seq<Share>): System
  {
    if shares == [] then s
    else TakeOrderReply(AfterOrderReplies(s, b, shares[..|shares| - 1]), b, shares[|shares| - 1])
  }

  /** Handling replies changes the proposer as its own handler does, and keeps the last certificate. */
  ghost predicate HandledReplies(s: System, s': System, b: BlockId, shares: seq<Share>)
  {
    var (q, certs) := TakeReplies(s.p, b, shares);
    s' == s.(p := q,
             orderCerts := if certs == [] then s.orderCerts else s.orderCerts[b := certs[|certs| - 1]])
  }

  lemma HandledOneMore(s: System, s': System, b: BlockId, shares: seq<Share>)
    requires shares != [] && HandledReplies(s, s', b, shares[..|shares| - 1])
    ensures HandledReplies(s, TakeOrderReply(s', b, shares[|shares| - 1]), b, shares)
  {
    var cert := OrderReplyStep(s'.p, b, shares[|shares| - 1]).1;
    if cert.None? {
      var certs := TakeReplies(s.p, b, shares[..|shares| - 1]).1;
      assert certs + [] == certs;
    }
  }

  lemma {:induction false} RepliesHandled(s: System, b: BlockId, shares: seq<Share>)
    ensures HandledReplies(s, AfterOrderReplies(s, b, shares), b, shares)
  {
    if shares != [] {
      var init := shares[..|shares| - 1];
      RepliesHandled(s, b, init);
      HandledOneMore(s, AfterOrderReplies(s, b, init), b, shares);
    }
  }

  lemma {:induction false} RepliesReach(c: Config, s: System, b: BlockId, shares: seq<Share>)
    requires Reachable(c, s) && forall i :: 0 <= i < |shares| ==> OPAReply(shares[i].signer, b, shares[i]) in s.sent
    ensures Reachable(c, AfterOrderReplies(s, b, shares))
  {
    if shares != [] {
      var init, last := shares[..|shares| - 1], shares[|shares| - 1];
      RepliesReach(c, s, b, init);
      RepliesHandled(s, b, init);
      ReachableNext(c, AfterOrderReplies(s, b, init), HandleOrderReply(OPAReply(last.signer, b, last)));
    }
  }

  /**
   * In a booth of any size: once as many different servers as its threshold have answered with shares on the
   * block, handling their replies certifies it with these servers as signers, and records it.
   */
  lemma EnoughRepliesOrder(c: Config, s: System, b: BlockId, from: seq<ServerId>)
    requires Reachable(c, s) && b in s.p.ord && s.p.ord[b].sigs == []
    requires Distinct(from) && |from| == Threshold(s.p.ord[b].booth)
    requires forall v :: v in from ==> OrderReply(s, b, v) in s.sent
    ensures var s', f := AfterOrderReplies(s, b, OrderShares(s.p, b, from)), s.p.ord[b];
            && Reachable(c, s') && s'.vs == s.vs && s'.sent == s.sent
            && b in s'.orderCerts && s'.orderCerts[b] == Cert(f.booth.id, f.hash, set v | v in from)
            && s'.p.rec.blockIDs == s.p.rec.blockIDs + [b]
  {
    ThresholdsAtLeastTwo(c, s);
    var shares := OrderShares(s.p, b, from);
    forall i | 0 <= i < |shares| ensures OPAReply(shares[i].signer, b, shares[i]) in s.sent {
      assert from[i] in from && OPAReply(shares[i].signer, b, shares[i]) == OrderReply(s, b, from[i]);
    }
    RepliesReach(c, s, b, shares);
    RepliesHandled(s, b, shares);
    RepliesExactly(s.p, b, shares);
    SignersAre(shares, from);
    CertsOfAll(shares, s.p.ord[b].booth, s.p.ord[b].hash);
  }

  lemma CertsOfAll(shares: seq<Share>, booth: Booth, hash: Digest)
    requires |shares| == Threshold(booth) > 0 && ValidShares(shares, booth.id, hash)
    ensures CertsOf(shares, booth, hash) == [Cert(booth.id, hash, Signers(shares))]
    ensures CertsOf(shares[..|shares| - 1], booth, hash) == []
    ensures FirstShares(shares[..|shares| - 1], Threshold(booth)) == shares[..|shares| - 1]
  {
    assert shares[..|shares|] == shares;
  }

  lemma SignersAre(shares: seq<Share>, from: seq<ServerId>)
    requires |shares| == |from| && forall i :: 0 <= i < |from| ==> shares[i].signer == from[i]
    ensures Signers(shares) == set v | v in from
  {
    forall v | v in from ensures v in Signers(shares) {
      var i :| 0 <= i < |from| && from[i] == v;
      assert shares[i].signer == v;
    }
  }

  // ----- Consensus -----

  function InstanceShares(p: ProposerState, i: InstId, from: seq<ServerId>): seq<Share>
    requires i in p.metaHash
  {
    seq(|from|, j requires 0 <= j < |from| => InstanceShare(p, i, from[j]))
  }

  /** One reply: what is read is written back before the next is taken up. */
  ghost function AfterTurn(c: Config, s: System, i: InstId, share: Share): System
    requires i in s.p.metaHash
  {
    var local := ReadSharesStep(s.p, i);
    var s1 := Read(s, i, share);
    if local.None? then s1 else Write(c, s1, Local(i, local.value, share))
  }

  ghost function AfterTurns(c: Config, s: System, i: InstId, shares: seq<Share>): (s': System)
    requires i in s.p.metaHash
    ensures i in s'.p.metaHash
  {
    if shares == [] then s
    else AfterTurn(c, AfterTurns(c, s, i, shares[..|shares| - 1]), i, shares[|shares| - 1])
  }

  lemma TurnTaken(c: Config, s: System, i: InstId, share: Share)
    requires i in s.p.metaHash
    ensures var (q, cert), s' := ReplyTurn(s.p, i, share), AfterTurn(c, s, i, share);
            && s'.p == q && s'.vs == s.vs && s.sent <= s'.sent
            && s'.commitCerts == (if cert.Some? then s.commitCerts[i := cert.value] else s.commitCerts)
            && (cert.Some? ==> s'.sent == s.sent + Commits(c, s.p, i, cert.value))
  {
  }

  lemma TurnReaches(c: Config, s: System, i: InstId, share: Share)
    requires Reachable(c, s) && i in s.p.metaHash && CPAReply(share.signer, i, share) in s.sent
    ensures Reachable(c, AfterTurn(c, s, i, share))
  {
    ReachableNext(c, s, ReadShares(CPAReply(share.signer, i, share)));
    var local, s1 := ReadSharesStep(s.p, i), Read(s, i, share);
    if local.Some? {
      ReachableNext(c, s1, WriteShares(Local(i, local.value, share)));
    }
  }

  ghost predicate RepliesSent(s: System, i: InstId, shares: seq<Share>)
  {
    forall j :: 0 <= j < |shares| ==> CPAReply(shares[j].signer, i, shares[j]) in s.sent
  }

  /** After these turns the proposer is as its own handlers leave it, and the last certificate is kept. */
  ghost predicate TookTurns(c: Config, s: System, s': System, i: InstId, shares: seq<Share>)
    requires i in s.p.metaHash
  {
    var (q, certs) := TakeTurns(s.p, i, shares);
    && Reachable(c, s') && s'.p == q && s'.vs == s.vs && s.sent <= s'.sent
    && s'.commitCerts == (if certs == [] then s.commitCerts else s.commitCerts[i := certs[|certs| - 1]])
  }

  lemma TookOneMore(c: Config, s: System, s': System, i: InstId, shares: seq<Share>)
    requires i in s.p.metaHash && i in s'.p.metaHash && shares != [] && RepliesSent(s, i, shares)
    requires TookTurns(c, s, s', i, shares[..|shares| - 1])
    ensures TookTurns(c, s, AfterTurn(c, s', i, shares[|shares| - 1]), i, shares)
  {
    TurnReaches(c, s', i, shares[|shares| - 1]);
    TurnTaken(c, s', i, shares[|shares| - 1]);
  }

  lemma {:induction false} TurnsTaken(c: Config, s: System, i: InstId, shares: seq<Share>)
    requires Reachable(c, s) && i in s.p.metaHash && RepliesSent(s, i, shares)
    ensures TookTurns(c, s, AfterTurns(c, s, i, shares), i, shares)
  {
    if shares != [] {
      var init := shares[..|shares| - 1];
      TurnsTaken(c, s, i, init);
      TookOneMore(c, s, AfterTurns(c, s, i, init), i, shares);
    }
  }

  lemma LastTurnCertifies(p: ProposerState, i: InstId, shares: seq<Share>)
    requires i in p.metaHash && SigsOf(p, i) == [] && |shares| == Threshold(ResidingBooth(p, i)) > 0
    requires ValidShares(shares, ResidingBooth(p, i).id, p.metaHash[i])
    ensures var n, q := |shares| - 1, TakeTurns(p, i, shares[..|shares| - 1]).0;
            && q == p.(metaSigs := q.metaSigs)
            && ReplyTurn(q, i, shares[n]).1 == Some(Cert(ResidingBooth(p, i).id, p.metaHash[i], Signers(shares)))
  {
    var n, booth := |shares| - 1, ResidingBooth(p, i);
    TurnsExactly(p, i, shares[..n]);
    CertsOfAll(shares, booth, p.metaHash[i]);
    var q := TakeTurns(p, i, shares[..n]).0;
    assert ResidingBooth(q, i) == booth && shares[..n] + [shares[n]] == shares;
    WriteSharesExactly(q, i, shares[..n], shares[n]);
  }

  /** The turn that completes the certificate sends it out. */
  lemma LastTurnSends(c: Config, s: System, i: InstId, shares: seq<Share>)
    requires Reachable(c, s) && i in s.p.metaHash && SigsOf(s.p, i) == [] && RepliesSent(s, i, shares)
    requires |shares| == Threshold(ResidingBooth(s.p, i)) > 0
    requires ValidShares(shares, ResidingBooth(s.p, i).id, s.p.metaHash[i])
    ensures var cert := Cert(ResidingBooth(s.p, i).id, s.p.metaHash[i], Signers(shares));
            Commits(c, s.p, i, cert) <= AfterTurns(c, s, i, shares).sent
  {
    var n := |shares| - 1;
    var s1 := AfterTurns(c, s, i, shares[..n]);
    TurnsTaken(c, s, i, shares[..n]);
    LastTurnCertifies(s.p, i, shares);
    TurnTaken(c, s1, i, shares[n]);
    var cert := Cert(ResidingBooth(s.p, i).id, s.p.metaHash[i], Signers(shares));
    SameCommits(c, s.p, s1.p, i, cert);
  }

  lemma SameCommits(c: Config, p: ProposerState, q: ProposerState, i: InstId, cert: Cert)
    requires i in p.metaHash && q == p.(metaSigs := q.metaSigs)
    ensures Commits(c, q, i, cert) == Commits(c, p, i, cert)
  {
    assert ResidingBooth(q, i) == ResidingBooth(p, i);
  }

  /**
   * In a commit booth of any size: once as many different servers as its threshold have answered, taking up their
   * replies one after the other gives the commit certificate, and it is sent to every member the instance was
   * announced to.
   */
  lemma EnoughRepliesCommit(c: Config, s: System, i: InstId, from: seq<ServerId>)
    requires Reachable(c, s) && i in s.p.metaHash && SigsOf(s.p, i) == []
    requires Distinct(from) && |from| == Threshold(ResidingBooth(s.p, i))
    requires forall v :: v in from ==> InstanceReply(s, i, v) in s.sent
    ensures var s', booth := AfterTurns(c, s, i, InstanceShares(s.p, i, from)), ResidingBooth(s.p, i);
            var cert := Cert(booth.id, s.p.metaHash[i], set v | v in from);
            && Reachable(c, s') && s'.vs == s.vs && i in s'.commitCerts && s'.commitCerts[i] == cert
            && forall v :: Invited(s, i, v) ==> CPB(v, booth, i, cert, s.p.metaHash[i]) in s'.sent
  {
    ThresholdsAtLeastTwo(c, s);
    var shares, booth := InstanceShares(s.p, i, from), ResidingBooth(s.p, i);
    forall j | 0 <= j < |shares| ensures CPAReply(shares[j].signer, i, shares[j]) in s.sent {
      assert from[j] in from && CPAReply(shares[j].signer, i, shares[j]) == InstanceReply(s, i, from[j]);
    }
    TurnsTaken(c, s, i, shares);
    TurnsExactly(s.p, i, shares);
    SignersAre(shares, from);
    CertsOfAll(shares, booth, s.p.metaHash[i]);
    LastTurnSends(c, s, i, shares);
    var cert := Cert(booth.id, s.p.metaHash[i], set v | v in from);
    forall v | Invited(s, i, v) ensures CPB(v, booth, i, cert, s.p.metaHash[i]) in Commits(c, s.p, i, cert) {
      CommitFollowsAnnouncement(c, s, i, cert, v);
    }
  }
}
