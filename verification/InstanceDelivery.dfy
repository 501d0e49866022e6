/**
 * A consensus round on the wire: the member lists that the collection builds, handed to the nested send
 * loop and followed over the relays to the members (vconsensus.go:86-97, vconsensus.go:168-183, mmu.go:583-664).
 */
module InstanceDelivery {
  import opened Types
  import opened Instances
  import opened Protocol
  import opened ProtocolSteps
  import ProtocolTheorems
  import Reachability
  import Routing

  /** Some covered block was ordered in a booth without v. */
  ghost predicate MissedSome(cmt: Cache, bids: seq<BlockId>, v: ServerId)
  {
    exists b :: b in bids && b in cmt && v !in cmt[b].booth.indices
  }

  /**
   * The new members that a collection finds make the nested loop send each member of the commit booth what it
   * needs: validator v receives one message per listing in the booth, the new one if and only if v missed a
   * covered block, provided the sender or, with bypassing, some proposer reaches it, and nothing otherwise.
   */
  lemma CollectedMembersDelivered<M>(t: Reachability.Tables, proposers: seq<ServerId>, validators: seq<ServerId>,
                                     data: Reachability.CommData,
                                     self: ServerId, cmt: Cache, commit: seq<ServerId>, bids: seq<BlockId>, v: ServerId,
                                     regular: M, newMsg: M, msg: M, key: Reachability.TimeKey, bypass: bool)
    requires Reachability.Generated(t, proposers, validators, data) && self in proposers && v in validators && v != self
    requires Instances.Complete(cmt, bids)
    ensures var sends := Routing.NewBoothSends(t, self, commit, Collect(cmt, commit, bids).newMembers, regular,
                                               newMsg, key, bypass);
            Routing.Deliveries(t, sends, key, bypass, v, msg) ==
            if msg == (if MissedSome(cmt, bids, v) then newMsg else regular)
            && Routing.Reachable(proposers, data, self, v, key, bypass)
            then Routing.Occurrences(commit, v) else 0
  {
    var newMembers := Collect(cmt, commit, bids).newMembers;
    CollectExactly(cmt, commit, bids);
    Routing.NewBoothSendsOnce(t, self, commit, newMembers, regular, newMsg, key, bypass);
    var choose := (u: ServerId) => if u in newMembers then newMsg else regular;
    Routing.BroadcastDelivers(t, proposers, validators, data, self, commit, choose, v, msg, key, bypass);
    ListedExactly(commit, v);
    if v in commit {
      assert v in newMembers <==> MissedSome(cmt, bids, v);
    }
  }

  lemma {:induction false} ListedExactly(xs: seq<ServerId>, x: ServerId)
    ensures Routing.Occurrences(xs, x) > 0 <==> x in xs
  {
    if xs != [] {
      ListedExactly(xs[..|xs| - 1], x);
      assert x in xs <==> x in xs[..|xs| - 1] || x == xs[|xs| - 1];
    }
  }

  /** What a round over the unread blocks puts on the proposer's connections (vconsensus.go:168-183). */
  ghost function RoundOnTheWire(c: Config, s: System, vehicles: seq<ServerId>, t: Reachability.Tables,
                                key: Reachability.TimeKey, bypass: bool): seq<Routing.Send<CpaEntry>>
    requires s.p.rec.Valid()
  {
    var booth := CommitBooth(s.p, [c.self] + vehicles);
    var a := AnnouncementOf(s.p, booth, s.p.rec.Unread());
    if a.newMembers == [] then Routing.EachSends(t, c.self, booth.indices, (_: ServerId) => a.entry, key, bypass)
    else Routing.NewBoothSends(t, c.self, booth.indices, a.newMembers, a.entry, a.entry.(prev := a.resent), key, bypass)
  }

  /**
   * Each validator receives of the round exactly the entry meant for it, once per listing in the commit booth
   * and so once in a booth without repetitions, if it is within reach of the proposer or, with bypassing,
   * of any proposer; out of reach, or outside the booth, it receives nothing.
   */
  lemma RoundDelivered(c: Config, s: System, vehicles: seq<ServerId>, t: Reachability.Tables, proposers: seq<ServerId>,
                       validators: seq<ServerId>, data: Reachability.CommData, v: ServerId, e: CpaEntry,
                       key: Reachability.TimeKey, bypass: bool)
    requires ProtocolTheorems.Reachable(c, s) && s.p.rec.Valid() && s.p.rec.Unread() != []
    requires Reachability.Generated(t, proposers, validators, data) && c.self in proposers && v in validators
             && v != c.self
    ensures var members := CommitBooth(s.p, [c.self] + vehicles).indices;
            var n := Routing.Deliveries(t, RoundOnTheWire(c, s, vehicles, t, key, bypass), key, bypass, v, e);
            && n == (if e == ProtocolTheorems.EntryTo(c, s, vehicles, v)
                     && Routing.Reachable(proposers, data, c.self, v, key, bypass)
                     then Routing.Occurrences(members, v) else 0)
            && (Distinct(members) ==> n <= 1)
  {
    ProtocolTheorems.RoundSends(c, s, vehicles);
    var booth, range := CommitBooth(s.p, [c.self] + vehicles), s.p.rec.Unread();
    var a := AnnouncementOf(s.p, booth, range);
    if a.newMembers == [] {
      Routing.BroadcastDelivers(t, proposers, validators, data, c.self, booth.indices, (_: ServerId) => a.entry, v, e,
                                key, bypass);
    } else {
      CollectedMembersDelivered(t, proposers, validators, data, c.self, s.p.cmt, booth.indices, range, v,
                                a.entry, a.entry.(prev := a.resent), e, key, bypass);
    }
    CollectExactly(s.p.cmt, booth.indices, range);
    ListedExactly(booth.indices, v);
    if v in booth.indices {
      assert v in a.newMembers <==> MissedSome(s.p.cmt, range, v);
    }
    if Distinct(booth.indices) {
      Routing.OccursOnce(booth.indices, v);
    }
  }

  /** For the members within reach, the step machine's messages of a round are those that the send loop gets to them. */
  lemma RoundAsAnnounced(c: Config, s: System, vehicles: seq<ServerId>, t: Reachability.Tables,
                         proposers: seq<ServerId>, validators: seq<ServerId>, data: Reachability.CommData, v: ServerId,
                         e: CpaEntry, key: Reachability.TimeKey, bypass: bool)
    requires ProtocolTheorems.Reachable(c, s) && s.p.rec.Valid() && s.p.rec.Unread() != []
    requires Reachability.Generated(t, proposers, validators, data) && c.self in proposers && v in validators
             && v != c.self
    requires e.inst == s.p.consInstID
    ensures Routing.Deliveries(t, RoundOnTheWire(c, s, vehicles, t, key, bypass), key, bypass, v, e) > 0
       <==> CPA(v, e) in Start(c, s, vehicles).sent && Routing.Reachable(proposers, data, c.self, v, key, bypass)
  {
    RoundDelivered(c, s, vehicles, t, proposers, validators, data, v, e, key, bypass);
    ProtocolTheorems.OneMessagePerMember(c, s, vehicles, v, e);
    ListedExactly(CommitBooth(s.p, [c.self] + vehicles).indices, v);
  }
}
