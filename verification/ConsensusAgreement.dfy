/**
 * Agreement of the consensus phase when one instance is announced under different total hashes. The CA handler
 * does not remember what it signed, and does not compute the total hash again from the hashes that it checks
 * (comply.go:209-266). What holds it back is the instance's job channel, which takes one token: the handler
 * sends one before it replies (comply.go:276-294), and only a CB handler takes it off, before it looks at the
 * signature (comply.go:312-331).
 */
module ConsensusAgreement {
  import opened Instances
  import opened Quorums
  import opened Signatures
  import opened Types
  import opened Validators

  /**
   * A CA handler goes up to its channel, a CA handler waiting there finds room and replies, or a CB handler
   * takes the token off. Each event but the first has no effect until it is its turn.
   */
  datatype Event =
    | Announce(to: ServerId, entry: CpaEntry)
    | Reply(to: ServerId, entry: CpaEntry)
    | Commit(to: ServerId, inst: InstId)

  datatype Vote = Vote(inst: InstId, share: Share)

  datatype Waiting = Waiting(to: ServerId, entry: CpaEntry)

  type Caches = map<ServerId, ValidatorState>

  /** The validators, the CA handlers at their channels, and the shares given. */
  datatype Ballot = Ballot(vs: Caches, waiting: multiset<Waiting>, cast: set<Vote>)

  function StateOf(vs: Caches, v: ServerId): ValidatorState
  {
    if v in vs then vs[v] else INITIAL_VALIDATOR
  }

  ghost function Handle(b: Ballot, ev: Event): Ballot
  {
    var v := StateOf(b.vs, ev.to);
    match ev
    case Announce(to, e) =>
      var (v', signs) := CACheck(v, e);
      b.(vs := b.vs[to := v'], waiting := if signs then b.waiting + multiset{Waiting(to, e)} else b.waiting)
    case Reply(to, e) =>
      if Waiting(to, e) !in b.waiting || e.inst in v.tokens then b
      else Ballot(b.vs[to := v.(tokens := v.tokens + {e.inst})], b.waiting - multiset{Waiting(to, e)},
                  b.cast + {Vote(e.inst, Share(to, e.booth.id, e.totalHash))})
    case Commit(to, inst) => b.(vs := b.vs[to := v.(tokens := v.tokens - {inst})])
  }

  /** The validators start with the caches `vs`, whatever they hold by then. */
  ghost function Run(vs: Caches, events: seq<Event>): Ballot
  {
    if events == [] then Ballot(vs, multiset{}, {})
    else Handle(Run(vs, events[..|events| - 1]), events[|events| - 1])
  }

  /** An instance in a booth, the servers its announcements reach, and those that its commit messages reach. */
  datatype Audience = Audience(inst: InstId, booth: nat, reached: set<ServerId>, released: set<ServerId>)

  ghost predicate ReleasedOnly(events: seq<Event>, k: Audience)
  {
    forall i :: 0 <= i < |events| && events[i].Commit? && events[i].inst == k.inst ==> events[i].to in k.released
  }

  ghost predicate IsAbout(e: CpaEntry, k: Audience)
  {
    e.inst == k.inst && e.booth.id == k.booth
  }

  ghost predicate ReachedOnly(events: seq<Event>, k: Audience)
  {
    forall i :: 0 <= i < |events| && events[i].Announce? && IsAbout(events[i].entry, k) ==> events[i].to in k.reached
  }

  ghost predicate AllVoted(q: set<ServerId>, b: Ballot, k: Audience, hash: Digest)
  {
    forall v :: v in q ==> Vote(k.inst, Share(v, k.booth, hash)) in b.cast
  }

  ghost predicate Certifiable(b: Ballot, k: Audience, hash: Digest, threshold: nat)
  {
    exists q: set<ServerId> :: |q| == threshold && AllVoted(q, b, k, hash)
  }

  /** A commit certificate can be recovered for the one instance on each of the two hashes. */
  ghost predicate BothCertifiable(b: Ballot, k: Audience, h1: Digest, h2: Digest, threshold: nat)
  {
    Certifiable(b, k, h1, threshold) && Certifiable(b, k, h2, threshold)
  }

  ghost predicate NoTokens(vs: Caches, inst: InstId)
  {
    forall v: ServerId :: inst !in StateOf(vs, v).tokens
  }

  // ----- A server that no commit message reaches signs once -----

  ghost predicate SignsOnce(b: Ballot, k: Audience)
  {
    && (forall w :: w in b.cast && w.inst == k.inst && w.share.signer !in k.released ==>
          k.inst in StateOf(b.vs, w.share.signer).tokens)
    && (forall w, x ::
          w in b.cast && x in b.cast && w.inst == k.inst == x.inst && w.share.signer == x.share.signer
          && w.share.signer !in k.released ==>
            w == x)
  }

  lemma HandleSignsOnce(b: Ballot, ev: Event, k: Audience)
    requires SignsOnce(b, k) && (ev.Commit? && ev.inst == k.inst ==> ev.to in k.released)
    ensures SignsOnce(Handle(b, ev), k)
  {
    if ev.Announce? {
      CheckOutcome(StateOf(b.vs, ev.to), ev.entry);
    }
  }

  lemma {:induction false} RunSignsOnce(vs: Caches, events: seq<Event>, k: Audience)
    requires ReleasedOnly(events, k)
    ensures SignsOnce(Run(vs, events), k)
  {
    if events != [] {
      var n := |events| - 1;
      RunSignsOnce(vs, events[..n], k);
      HandleSignsOnce(Run(vs, events[..n]), events[n], k);
    }
  }

  /** All who have given a share for the instance are in `voters`. */
  ghost predicate VotersIn(b: Ballot, k: Audience, voters: set<ServerId>)
  {
    forall w :: w in b.cast && w.inst == k.inst && w.share.boothId == k.booth ==> w.share.signer in voters
  }

  /** Two quorums out of `voters` meet in servers that a commit message has released in between. */
  lemma QuorumsNeed(b: Ballot, k: Audience, voters: set<ServerId>, h1: Digest, h2: Digest, t: nat)
    requires SignsOnce(b, k) && VotersIn(b, k, voters) && h1 != h2 && BothCertifiable(b, k, h1, h2, t)
    ensures |voters| >= t && |voters * k.released| >= 2 * t - |voters|
  {
    var q1: set<ServerId> :| |q1| == t && AllVoted(q1, b, k, h1);
    var q2: set<ServerId> :| |q2| == t && AllVoted(q2, b, k, h2);
    forall v | v in q1 ensures v in voters {
      assert Vote(k.inst, Share(v, k.booth, h1)) in b.cast;
    }
    forall v | v in q2 ensures v in voters {
      assert Vote(k.inst, Share(v, k.booth, h2)) in b.cast;
    }
    forall v | v in q1 * q2 ensures v in k.released {
      var w, x := Vote(k.inst, Share(v, k.booth, h1)), Vote(k.inst, Share(v, k.booth, h2));
      assert w in b.cast && x in b.cast && w != x;
    }
    UnionSize(q1, q2);
    SubsetSize(q1, voters);
    SubsetSize(q1 + q2, voters);
    SubsetSize(q1 * q2, voters * k.released);
  }

  // ----- Announcements that differ in the total hash only -----

  /** What each server is announced, up to the total hash. */
  type Base = ServerId -> CpaEntry

  /** The announcement `e` under another total hash. */
  function Variant(e: CpaEntry, hash: Digest): CpaEntry
  {
    e.(totalHash := hash)
  }

  ghost predicate BaseOk(base: Base, k: Audience)
  {
    forall v :: v in k.reached ==> IsAbout(base(v), k)
  }

  /** Servers that are reached are announced variants of their base, and nothing else. */
  ghost predicate OnlyVariants(events: seq<Event>, k: Audience, base: Base)
  {
    && ReleasedOnly(events, k)
    && forall i :: 0 <= i < |events| && events[i].Announce? ==>
         events[i].to in k.reached && events[i].entry == Variant(base(events[i].to), events[i].entry.totalHash)
  }

  /** Once the resent blocks are stored, no cached block contradicts the announcement, which names at least one. */
  ghost predicate Accepts(v: ValidatorState, e: CpaEntry)
  {
    e.bids != [] && Scan(CatchUp(v, e.prev).cmt, e.rangeHash, e.bids).ok
  }

  ghost function Accepting(vs: Caches, k: Audience, base: Base): set<ServerId>
  {
    set v | v in k.reached && Accepts(StateOf(vs, v), base(v))
  }

  /** The cached blocks of v are as at the start, or as its resent entries leave them. */
  ghost predicate CacheOk(vs: Caches, now: Caches, base: Base, v: ServerId)
  {
    && StateOf(now, v).ord == StateOf(vs, v).ord
    && (StateOf(now, v).cmt == StateOf(vs, v).cmt
        || StateOf(now, v).cmt == CatchUp(StateOf(vs, v), base(v).prev).cmt)
  }

  ghost predicate CachesOk(vs: Caches, b: Ballot, base: Base)
  {
    forall v: ServerId :: CacheOk(vs, b.vs, base, v)
  }

  /** A CA handler gets to its channel if and only if its server accepted the announcement at the start. */
  lemma ChecksAsAtStart(vs: Caches, b: Ballot, base: Base, v: ServerId, hash: Digest)
    requires CacheOk(vs, b.vs, base, v)
    ensures var (v', signs) := CACheck(StateOf(b.vs, v), Variant(base(v), hash));
            && v'.ord == StateOf(vs, v).ord && v'.cmt == CatchUp(StateOf(vs, v), base(v).prev).cmt
            && v'.tokens == StateOf(b.vs, v).tokens && (signs <==> Accepts(StateOf(vs, v), base(v)))
  {
    var now, start := StateOf(b.vs, v), StateOf(vs, v);
    CheckOutcome(now, Variant(base(v), hash));
    if now.cmt == start.cmt {
      CatchUpSame(start, now, base(v).prev);
    } else {
      CatchUpTwice(start, now, base(v).prev);
    }
  }

  /** Whoever waits or has voted accepted its announcement, and caches change as resent entries change them. */
  ghost predicate AcceptInv(vs: Caches, b: Ballot, k: Audience, base: Base)
  {
    && CachesOk(vs, b, base) && VotersIn(b, k, Accepting(vs, k, base))
    && forall w :: w in b.waiting ==> w.to in Accepting(vs, k, base)
  }

  lemma HandleKeepsCaches(vs: Caches, b: Ballot, ev: Event, base: Base)
    requires CachesOk(vs, b, base)
    requires ev.Announce? ==> ev.entry == Variant(base(ev.to), ev.entry.totalHash)
    ensures CachesOk(vs, Handle(b, ev), base)
  {
    assert CacheOk(vs, b.vs, base, ev.to);
    if ev.Announce? {
      ChecksAsAtStart(vs, b, base, ev.to, ev.entry.totalHash);
    }
    forall v: ServerId ensures CacheOk(vs, Handle(b, ev).vs, base, v) {
      assert CacheOk(vs, b.vs, base, v);
    }
  }

  lemma HandleAccepts(vs: Caches, b: Ballot, ev: Event, k: Audience, base: Base)
    requires AcceptInv(vs, b, k, base)
    requires ev.Announce? ==> ev.to in k.reached && ev.entry == Variant(base(ev.to), ev.entry.totalHash)
    ensures AcceptInv(vs, Handle(b, ev), k, base)
  {
    HandleKeepsCaches(vs, b, ev, base);
    assert CacheOk(vs, b.vs, base, ev.to);
    if ev.Announce? {
      ChecksAsAtStart(vs, b, base, ev.to, ev.entry.totalHash);
    }
  }

  lemma {:induction false} RunAccepts(vs: Caches, events: seq<Event>, k: Audience, base: Base)
    requires OnlyVariants(events, k, base)
    ensures AcceptInv(vs, Run(vs, events), k, base)
  {
    if events != [] {
      var n := |events| - 1;
      RunAccepts(vs, events[..n], k, base);
      HandleAccepts(vs, Run(vs, events[..n]), events[n], k, base);
    }
  }

  lemma Snoc(vs: Caches, events: seq<Event>, ev: Event)
    ensures Run(vs, events + [ev]) == Handle(Run(vs, events), ev)
  {
    assert (events + [ev])[..|events + [ev]| - 1] == events;
  }

  /** An announcement that is accepted, then the reply at a channel with room. */
  lemma Replied(b: Ballot, v: ServerId, e: CpaEntry)
    requires CACheck(StateOf(b.vs, v), e).1 && e.inst !in StateOf(b.vs, v).tokens
    ensures var b' := Handle(Handle(b, Announce(v, e)), Reply(v, e));
            && b'.cast == b.cast + {Vote(e.inst, Share(v, e.booth.id, e.totalHash))}
            && forall u: ServerId :: u != v ==> StateOf(b'.vs, u) == StateOf(b.vs, u)
  {
    CheckOutcome(StateOf(b.vs, v), e);
    var b1 := Handle(b, Announce(v, e));
    assert Waiting(v, e) in b1.waiting && StateOf(b1.vs, v).tokens == StateOf(b.vs, v).tokens;
  }

  lemma MoreVariants(before: seq<Event>, ev: Event, k: Audience, base: Base)
    requires OnlyVariants(before, k, base)
    requires ev.Announce? ==> ev.to in k.reached && ev.entry == Variant(base(ev.to), ev.entry.totalHash)
    requires ev.Commit? && ev.inst == k.inst ==> ev.to in k.released
    ensures OnlyVariants(before + [ev], k, base)
  {
  }

  /** A server that accepts and holds no token is announced a variant and replies. */
  lemma CastOne(vs: Caches, before: seq<Event>, v: ServerId, k: Audience, base: Base, hash: Digest)
    returns (events: seq<Event>)
    requires OnlyVariants(before, k, base) && BaseOk(base, k) && v in Accepting(vs, k, base)
    requires k.inst !in StateOf(Run(vs, before).vs, v).tokens
    ensures OnlyVariants(events, k, base) && Run(vs, before).cast <= Run(vs, events).cast
    ensures Vote(k.inst, Share(v, k.booth, hash)) in Run(vs, events).cast
    ensures forall u: ServerId :: u != v ==> StateOf(Run(vs, events).vs, u) == StateOf(Run(vs, before).vs, u)
  {
    var e, b := Variant(base(v), hash), Run(vs, before);
    AcceptsNow(vs, before, v, k, base, hash);
    Replied(b, v, e);
    var announced := before + [Announce(v, e)];
    MoreVariants(before, Announce(v, e), k, base);
    MoreVariants(announced, Reply(v, e), k, base);
    Snoc(vs, before, Announce(v, e));
    Snoc(vs, announced, Reply(v, e));
    events := announced + [Reply(v, e)];
  }

  lemma AcceptsNow(vs: Caches, before: seq<Event>, v: ServerId, k: Audience, base: Base, hash: Digest)
    requires OnlyVariants(before, k, base) && v in Accepting(vs, k, base)
    ensures CACheck(StateOf(Run(vs, before).vs, v), Variant(base(v), hash)).1
  {
    RunAccepts(vs, before, k, base);
    assert CacheOk(vs, Run(vs, before).vs, base, v);
    ChecksAsAtStart(vs, Run(vs, before), base, v, hash);
  }

  lemma {:induction false} CastAll(vs: Caches, before: seq<Event>, q: set<ServerId>, k: Audience, base: Base,
                                   hash: Digest)
    returns (events: seq<Event>)
    requires OnlyVariants(before, k, base) && BaseOk(base, k) && q <= Accepting(vs, k, base)
    requires forall v :: v in q ==> k.inst !in StateOf(Run(vs, before).vs, v).tokens
    ensures OnlyVariants(events, k, base) && Run(vs, before).cast <= Run(vs, events).cast
    ensures AllVoted(q, Run(vs, events), k, hash)
    ensures forall u: ServerId :: u !in q ==> StateOf(Run(vs, events).vs, u) == StateOf(Run(vs, before).vs, u)
    decreases |q|
  {
    if q == {} {
      events := before;
    } else {
      var v :| v in q;
      var next := CastOne(vs, before, v, k, base, hash);
      events := CastAll(vs, next, q - {v}, k, base, hash);
    }
  }

  /** Commit messages, whatever they carry, take the tokens off the channels of `q`. */
  lemma {:induction false} ReleaseAll(vs: Caches, before: seq<Event>, q: set<ServerId>, k: Audience, base: Base)
    returns (events: seq<Event>)
    requires OnlyVariants(before, k, base) && q <= k.released
    ensures OnlyVariants(events, k, base) && Run(vs, events).cast == Run(vs, before).cast
    ensures forall v :: v in q ==> k.inst !in StateOf(Run(vs, events).vs, v).tokens
    ensures forall u: ServerId :: u !in q ==> StateOf(Run(vs, events).vs, u) == StateOf(Run(vs, before).vs, u)
    decreases |q|
  {
    if q == {} {
      events := before;
    } else {
      var v :| v in q;
      var next := before + [Commit(v, k.inst)];
      Snoc(vs, before, Commit(v, k.inst));
      MoreVariants(before, Commit(v, k.inst), k, base);
      events := ReleaseAll(vs, next, q - {v}, k, base);
    }
  }

  /** Some schedule of variants lets both hashes be certified. */
  ghost predicate VariantConflict(vs: Caches, k: Audience, base: Base, h1: Digest, h2: Digest, threshold: nat)
  {
    exists events :: OnlyVariants(events, k, base) && BothCertifiable(Run(vs, events), k, h1, h2, threshold)
  }

  lemma QuorumsVote(vs: Caches, k: Audience, base: Base, q1: set<ServerId>, q2: set<ServerId>, h1: Digest, h2: Digest)
    returns (events: seq<Event>)
    requires NoTokens(vs, k.inst) && BaseOk(base, k) && q1 * q2 <= k.released
    requires q1 <= Accepting(vs, k, base) && q2 <= Accepting(vs, k, base)
    ensures OnlyVariants(events, k, base)
    ensures AllVoted(q1, Run(vs, events), k, h1) && AllVoted(q2, Run(vs, events), k, h2)
  {
    var none: seq<Event> := [];
    assert Run(vs, none) == Ballot(vs, multiset{}, {});
    var first := CastAll(vs, none, q1, k, base, h1);
    var freed := ReleaseAll(vs, first, q1 * q2, k, base);
    forall v | v in q2 ensures k.inst !in StateOf(Run(vs, freed).vs, v).tokens {
      assert v in q1 ==> v in q1 * q2;
    }
    events := CastAll(vs, freed, q2, k, base, h2);
  }

  lemma ConflictSchedule(vs: Caches, k: Audience, base: Base, h1: Digest, h2: Digest, t: nat)
    requires NoTokens(vs, k.inst) && BaseOk(base, k)
    requires var a := Accepting(vs, k, base); |a| >= t && |a * k.released| >= 2 * t - |a|
    ensures VariantConflict(vs, k, base, h1, h2, t)
  {
    var a := Accepting(vs, k, base);
    var shared := Pick(a * k.released, if 2 * t > |a| then 2 * t - |a| else 0);
    var q1, q2 := TwoQuorums(a, shared, t);
    var events := QuorumsVote(vs, k, base, q1, q2, h1, h2);
    assert Certifiable(Run(vs, events), k, h1, t) && Certifiable(Run(vs, events), k, h2, t);
  }

  /**
   * An instance announced under two total hashes, otherwise to each server alike, with whatever resent blocks:
   * let A be the servers reached whose caches do not contradict it. Both hashes can be certified if and only if
   * A has a threshold of servers and commit messages reach enough of A for two quorums to overlap there.
   */
  lemma CommitConflictExactly(vs: Caches, k: Audience, base: Base, h1: Digest, h2: Digest, threshold: nat)
    requires NoTokens(vs, k.inst) && BaseOk(base, k) && h1 != h2
    ensures var a := Accepting(vs, k, base);
            VariantConflict(vs, k, base, h1, h2, threshold)
            <==> |a| >= threshold && |a * k.released| >= 2 * threshold - |a|
  {
    var a := Accepting(vs, k, base);
    if |a| >= threshold && |a * k.released| >= 2 * threshold - |a| {
      ConflictSchedule(vs, k, base, h1, h2, threshold);
    }
    if VariantConflict(vs, k, base, h1, h2, threshold) {
      var events :| OnlyVariants(events, k, base) && BothCertifiable(Run(vs, events), k, h1, h2, threshold);
      RunSignsOnce(vs, events, k);
      RunAccepts(vs, events, k, base);
      QuorumsNeed(Run(vs, events), k, a, h1, h2, threshold);
    }
  }

  /** With announcements alone it takes two disjoint quorums: twice the threshold of accepting servers. */
  lemma AnnouncementsAloneConflict(vs: Caches, k: Audience, base: Base, h1: Digest, h2: Digest, threshold: nat)
    requires NoTokens(vs, k.inst) && BaseOk(base, k) && h1 != h2 && k.released == {}
    ensures VariantConflict(vs, k, base, h1, h2, threshold) <==> |Accepting(vs, k, base)| >= 2 * threshold
  {
    var a := Accepting(vs, k, base);
    assert a * k.released == {};
    CommitConflictExactly(vs, k, base, h1, h2, threshold);
  }

  // ----- Any announcements -----

  /** Whoever waits for the instance or has voted was reached. */
  ghost predicate ReachedInv(b: Ballot, k: Audience)
  {
    VotersIn(b, k, k.reached) && forall w :: w in b.waiting && IsAbout(w.entry, k) ==> w.to in k.reached
  }

  lemma {:induction false} RunReaches(vs: Caches, events: seq<Event>, k: Audience)
    requires ReachedOnly(events, k)
    ensures ReachedInv(Run(vs, events), k)
  {
    if events != [] {
      RunReaches(vs, events[..|events| - 1], k);
    }
  }

  /** Some schedule of any announcements lets both hashes be certified. */
  ghost predicate AnyConflict(vs: Caches, k: Audience, h1: Digest, h2: Digest, threshold: nat)
  {
    exists events ::
      ReleasedOnly(events, k) && ReachedOnly(events, k) && BothCertifiable(Run(vs, events), k, h1, h2, threshold)
  }

  lemma {:induction false} BeyondAll(ids: set<BlockId>) returns (b: BlockId)
    ensures forall id :: id in ids ==> id < b
  {
    if ids == {} {
      b := 0;
    } else {
      var id :| id in ids;
      var others := BeyondAll(ids - {id});
      b := if id < others then others else id + 1;
      forall x | x in ids ensures x < b {
        assert x == id || x in ids - {id};
      }
    }
  }

  lemma SomeUnused(cmt: Cache)
    ensures exists b: BlockId :: b !in cmt
  {
    var b := BeyondAll(cmt.Keys);
    assert b !in cmt;
  }

  /** An announcement that names a block the server does not hold, so that nothing can contradict it. */
  ghost function Unknown(v: ValidatorState, k: Audience): (e: CpaEntry)
    ensures IsAbout(e, k) && Accepts(v, e)
  {
    SomeUnused(v.cmt);
    var b: BlockId :| b !in v.cmt;
    CpaEntry([], Booth(k.booth, []), [b], k.inst, map[], OfRange(map[]))
  }

  /**
   * If the proposer may also choose each server's blocks, what the servers hold is of no account: both hashes
   * can be certified if and only if a threshold of servers is reached and commit messages reach enough of them
   * for two quorums to overlap there.
   */
  lemma CachesDoNotHelp(vs: Caches, k: Audience, h1: Digest, h2: Digest, threshold: nat)
    requires NoTokens(vs, k.inst) && h1 != h2
    ensures AnyConflict(vs, k, h1, h2, threshold)
            <==> |k.reached| >= threshold && |k.reached * k.released| >= 2 * threshold - |k.reached|
  {
    if |k.reached| >= threshold && |k.reached * k.released| >= 2 * threshold - |k.reached| {
      var base := (v: ServerId) => Unknown(StateOf(vs, v), k);
      assert Accepting(vs, k, base) == k.reached;
      ConflictSchedule(vs, k, base, h1, h2, threshold);
      var events :| OnlyVariants(events, k, base) && BothCertifiable(Run(vs, events), k, h1, h2, threshold);
      assert ReachedOnly(events, k);
    }
    if AnyConflict(vs, k, h1, h2, threshold) {
      var events :| ReleasedOnly(events, k) && ReachedOnly(events, k)
                    && BothCertifiable(Run(vs, events), k, h1, h2, threshold);
      RunSignsOnce(vs, events, k);
      RunReaches(vs, events, k);
      QuorumsNeed(Run(vs, events), k, k.reached, h1, h2, threshold);
    }
  }
}
