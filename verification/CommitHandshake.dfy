/**
 * All interleavings of a validator's handlers for the two consensus messages of one instance, which
 * meet at a channel of capacity one (comply.go:183-346). Any number of each may run; meanwhile other
 * handlers change the cached snapshots at will.
 */
module CommitHandshake {
  import opened Types

  /** What a CPA message announces. */
  datatype Announcement = Announcement(bids: seq<BlockId>, rangeHash: map<BlockId, Digest>)

  /** Checking the next block, stopped without signing, signed, holding the channel, or done sending on it. */
  datatype CaPc = Checking(next: nat) | Stopped | Signed | AtChannel(ch: nat) | Sent

  datatype CbPc = Arrived | Waiting(ch: nat) | Passed

  /**
   * `channels` holds the number of buffered tokens of each channel made so far, `stack` the channel of
   * this instance in valiConsJobStack. `seen` remembers what each CA handler found cached block by block.
   */
  datatype State = State(local: map<BlockId, Digest>, channels: seq<nat>, stack: Option<nat>,
                         ca: seq<CaPc>, cb: seq<CbPc>, seen: seq<seq<Option<Digest>>>)

  datatype Event = CaStep(h: nat) | CbStep(h: nat) | CacheChange(local: map<BlockId, Digest>)

  function Initial(local: map<BlockId, Digest>, cas: nat, cbs: nat): State
  {
    State(local, [], None, seq(cas, _ => Checking(0)), seq(cbs, _ => Arrived), seq(cas, _ => []))
  }

  function Cached(local: map<BlockId, Digest>, b: BlockId): Option<Digest>
  {
    if b in local then Some(local[b]) else None
  }

  /** A block that is not cached is skipped; a cached one must have the announced hash (comply.go:214-223). */
  predicate Matches(m: Announcement, b: BlockId, cached: Option<Digest>)
  {
    cached.Some? ==> b in m.rangeHash && m.rangeHash[b] == cached.value
  }

  /** The channel of the instance, made if there is none (comply.go:272-285, 312-325). */
  function GetChannel(s: State): (State, nat)
  {
    if s.stack.Some? then (s, s.stack.value)
    else (s.(channels := s.channels + [0], stack := Some(|s.channels|)), |s.channels|)
  }

  function CaTurn(ms: seq<Announcement>, s: State, h: nat): State
    requires |s.ca| == |s.seen| == |ms| && h < |ms|
  {
    match s.ca[h]
    case Checking(i) =>
      if ms[h].bids == [] then s.(ca := s.ca[h := Stopped])
      else if i >= |ms[h].bids| then s.(ca := s.ca[h := Signed])
      else
        var b := ms[h].bids[i];
        var cached := Cached(s.local, b);
        if Matches(ms[h], b, cached)
        then s.(ca := s.ca[h := Checking(i + 1)], seen := s.seen[h := s.seen[h] + [cached]])
        else s.(ca := s.ca[h := Stopped])
    case Signed =>
      var (s', ch) := GetChannel(s);
      s'.(ca := s.ca[h := AtChannel(ch)])
    case AtChannel(ch) =>
      if ch < |s.channels| && s.channels[ch] < 1
      then s.(channels := s.channels[ch := s.channels[ch] + 1], ca := s.ca[h := Sent])
      else s
    case Stopped => s
    case Sent => s
  }

  function CbTurn(s: State, h: nat): State
    requires h < |s.cb|
  {
    match s.cb[h]
    case Arrived =>
      var (s', ch) := GetChannel(s);
      s'.(cb := s.cb[h := Waiting(ch)])
    case Waiting(ch) =>
      if ch < |s.channels| && s.channels[ch] > 0
      then s.(channels := s.channels[ch := s.channels[ch] - 1], cb := s.cb[h := Passed])
      else s
    case Passed => s
  }

  function Step(ms: seq<Announcement>, s: State, e: Event): State
    requires |s.ca| == |s.seen| == |ms|
  {
    match e
    case CaStep(h) => if h < |ms| then CaTurn(ms, s, h) else s
    case CbStep(h) => if h < |s.cb| then CbTurn(s, h) else s
    case CacheChange(local) => s.(local := local)
  }

  function Run(ms: seq<Announcement>, cbs: nat, local: map<BlockId, Digest>, events: seq<Event>): (s: State)
    ensures |s.ca| == |s.seen| == |ms| && |s.cb| == cbs
  {
    if events == [] then Initial(local, |ms|, cbs)
    else Step(ms, Run(ms, cbs, local, events[..|events| - 1]), events[|events| - 1])
  }

  function SentCount(ca: seq<CaPc>): nat
  {
    if ca == [] then 0 else SentCount(ca[..|ca| - 1]) + if ca[|ca| - 1].Sent? then 1 else 0
  }

  function PassedCount(cb: seq<CbPc>): nat
  {
    if cb == [] then 0 else PassedCount(cb[..|cb| - 1]) + if cb[|cb| - 1].Passed? then 1 else 0
  }

  /** Handler h has found every block it looked at either missing or with the announced hash. */
  ghost predicate SeenOk(m: Announcement, seen: seq<Option<Digest>>)
  {
    |seen| <= |m.bids| && forall i :: 0 <= i < |seen| ==> Matches(m, m.bids[i], seen[i])
  }

  ghost predicate CaOk(m: Announcement, s: State, h: nat)
    requires h < |s.ca| == |s.seen|
  {
    SeenOk(m, s.seen[h])
    && match s.ca[h]
       case Checking(i) => i == |s.seen[h]|
       case Stopped => true
       case Signed => |s.seen[h]| == |m.bids| > 0
       case AtChannel(ch) => |s.seen[h]| == |m.bids| > 0 && s.stack == Some(ch)
       case Sent => |s.seen[h]| == |m.bids| > 0
  }

  /** There is at most one channel, every handler at a channel is at that one, and no token is lost or made up. */
  ghost predicate Inv(ms: seq<Announcement>, s: State)
  {
    && |s.ca| == |s.seen| == |ms|
    && (forall h :: 0 <= h < |ms| ==> CaOk(ms[h], s, h))
    && (forall h :: 0 <= h < |s.cb| && s.cb[h].Waiting? ==> s.stack == Some(s.cb[h].ch))
    && (if s.stack.None? then s.channels == [] && SentCount(s.ca) == PassedCount(s.cb) == 0
        else s.stack == Some(0) && |s.channels| == 1 && s.channels[0] <= 1
             && SentCount(s.ca) == PassedCount(s.cb) + s.channels[0])
  }

  lemma {:induction false} SentUpdate(ca: seq<CaPc>, h: nat, pc: CaPc)
    requires h < |ca| && !ca[h].Sent?
    ensures SentCount(ca[h := pc]) == SentCount(ca) + if pc.Sent? then 1 else 0
  {
    var n := |ca| - 1;
    if h == n {
      assert ca[h := pc][..n] == ca[..n];
    } else {
      assert ca[h := pc][..n] == ca[..n][h := pc];
      SentUpdate(ca[..n], h, pc);
    }
  }

  lemma {:induction false} PassedUpdate(cb: seq<CbPc>, h: nat, pc: CbPc)
    requires h < |cb| && !cb[h].Passed?
    ensures PassedCount(cb[h := pc]) == PassedCount(cb) + if pc.Passed? then 1 else 0
  {
    var n := |cb| - 1;
    if h == n {
      assert cb[h := pc][..n] == cb[..n];
    } else {
      assert cb[h := pc][..n] == cb[..n][h := pc];
      PassedUpdate(cb[..n], h, pc);
    }
  }

  lemma CaTurnKeepsInv(ms: seq<Announcement>, s: State, h: nat)
    requires Inv(ms, s) && h < |ms|
    ensures Inv(ms, CaTurn(ms, s, h))
  {
    var s' := CaTurn(ms, s, h);
    assert CaOk(ms[h], s, h);
    if !s.ca[h].Sent? {
      SentUpdate(s.ca, h, s'.ca[h]);
      assert s'.ca == s.ca[h := s'.ca[h]];
    }
    forall g | 0 <= g < |ms| ensures CaOk(ms[g], s', g) {
      assert CaOk(ms[g], s, g);
    }
  }

  lemma CbTurnKeepsInv(ms: seq<Announcement>, s: State, h: nat)
    requires Inv(ms, s) && h < |s.cb|
    ensures Inv(ms, CbTurn(s, h))
  {
    var s' := CbTurn(s, h);
    if !s.cb[h].Passed? {
      PassedUpdate(s.cb, h, s'.cb[h]);
      assert s'.cb == s.cb[h := s'.cb[h]];
    }
    forall g | 0 <= g < |ms| ensures CaOk(ms[g], s', g) {
      assert CaOk(ms[g], s, g);
    }
  }

  lemma {:induction false} NoneSent(ca: seq<CaPc>)
    requires forall h :: 0 <= h < |ca| ==> !ca[h].Sent?
    ensures SentCount(ca) == 0
  {
    if ca != [] {
      NoneSent(ca[..|ca| - 1]);
    }
  }

  lemma {:induction false} NonePassed(cb: seq<CbPc>)
    requires forall h :: 0 <= h < |cb| ==> !cb[h].Passed?
    ensures PassedCount(cb) == 0
  {
    if cb != [] {
      NonePassed(cb[..|cb| - 1]);
    }
  }

  lemma {:induction false} Reachable(ms: seq<Announcement>, cbs: nat, local: map<BlockId, Digest>, events: seq<Event>)
    ensures Inv(ms, Run(ms, cbs, local, events))
  {
    if events == [] {
      NoneSent(Initial(local, |ms|, cbs).ca);
      NonePassed(Initial(local, |ms|, cbs).cb);
    } else {
      var s := Run(ms, cbs, local, events[..|events| - 1]);
      Reachable(ms, cbs, local, events[..|events| - 1]);
      match events[|events| - 1] {
        case CaStep(h) => if h < |ms| { CaTurnKeepsInv(ms, s, h); }
        case CbStep(h) => if h < |s.cb| { CbTurnKeepsInv(ms, s, h); }
        case CacheChange(now) =>
          forall g | 0 <= g < |ms| ensures CaOk(ms[g], s.(local := now), g) {
            assert CaOk(ms[g], s, g);
          }
      }
    }
  }

  /**
   * In every interleaving whichever handler comes first makes the only channel, no more CB handlers
   * pass than CA handlers sent a token, and each of those had found every block of its announcement
   * either not cached or cached with the announced hash.
   */
  lemma PassOnlyAfterMatch(ms: seq<Announcement>, cbs: nat, local: map<BlockId, Digest>, events: seq<Event>)
    ensures var s := Run(ms, cbs, local, events);
            && |s.channels| <= 1
            && PassedCount(s.cb) <= SentCount(s.ca)
            && (forall h :: 0 <= h < |ms| && (s.ca[h].Signed? || s.ca[h].AtChannel? || s.ca[h].Sent?) ==>
                  |s.seen[h]| == |ms[h].bids| > 0
                  && forall i :: 0 <= i < |ms[h].bids| ==> Matches(ms[h], ms[h].bids[i], s.seen[h][i]))
  {
    Reachable(ms, cbs, local, events);
    var s := Run(ms, cbs, local, events);
    forall h | 0 <= h < |ms| && (s.ca[h].Signed? || s.ca[h].AtChannel? || s.ca[h].Sent?)
      ensures |s.seen[h]| == |ms[h].bids| > 0 && SeenOk(ms[h], s.seen[h])
    {
      assert CaOk(ms[h], s, h);
    }
  }

  /** Handler h is about to stop: nothing is announced, or the block it looks at is cached with another hash. */
  predicate Contradicted(m: Announcement, s: State, h: nat)
  {
    && h < |s.ca| && s.ca[h].Checking?
    && (m.bids == [] || (s.ca[h].next < |m.bids|
                         && var b := m.bids[s.ca[h].next]; !Matches(m, b, Cached(s.local, b))))
  }

  ghost predicate ContradictedAt(ms: seq<Announcement>, cbs: nat, local: map<BlockId, Digest>, events: seq<Event>,
                                 h: nat, k: nat)
  {
    k < |events| && h < |ms| && events[k] == CaStep(h) && Contradicted(ms[h], Run(ms, cbs, local, events[..k]), h)
  }

  lemma StopsNow(ms: seq<Announcement>, s: State, e: Event, h: nat)
    requires |s.ca| == |s.seen| == |ms| && h < |ms|
    ensures Step(ms, s, e).ca[h].Stopped? <==> s.ca[h].Stopped? || (e == CaStep(h) && Contradicted(ms[h], s, h))
  {
  }

  /** A CA handler stops without signing if and only if one of its turns met a contradiction. */
  lemma {:induction false} StopsExactly(ms: seq<Announcement>, cbs: nat, local: map<BlockId, Digest>,
                                        events: seq<Event>, h: nat)
    requires h < |ms|
    ensures Run(ms, cbs, local, events).ca[h].Stopped? <==>
            exists k: nat :: ContradictedAt(ms, cbs, local, events, h, k)
  {
    if events != [] {
      var n := |events| - 1;
      StopsExactly(ms, cbs, local, events[..n], h);
      StopsNow(ms, Run(ms, cbs, local, events[..n]), events[n], h);
      forall k: nat | k < n
        ensures ContradictedAt(ms, cbs, local, events, h, k) <==> ContradictedAt(ms, cbs, local, events[..n], h, k)
      {
        assert events[..n][..k] == events[..k];
      }
      assert ContradictedAt(ms, cbs, local, events, h, n) <==>
             events[n] == CaStep(h) && Contradicted(ms[h], Run(ms, cbs, local, events[..n]), h);
    }
  }

  /** If every CA handler stopped, no CB handler ever passes its wait. */
  lemma NoPassWhenStopped(ms: seq<Announcement>, cbs: nat, local: map<BlockId, Digest>, events: seq<Event>)
    requires forall h :: 0 <= h < |ms| ==> Run(ms, cbs, local, events).ca[h].Stopped?
    ensures forall h :: 0 <= h < cbs ==> !Run(ms, cbs, local, events).cb[h].Passed?
  {
    Reachable(ms, cbs, local, events);
    var s := Run(ms, cbs, local, events);
    NoneSent(s.ca);
    forall h | 0 <= h < cbs ensures !s.cb[h].Passed? {
      SomePassed(s.cb, h);
    }
  }

  lemma {:induction false} SomePassed(cb: seq<CbPc>, h: nat)
    requires h < |cb|
    ensures cb[h].Passed? ==> PassedCount(cb) >= 1
  {
    if h < |cb| - 1 {
      SomePassed(cb[..|cb| - 1], h);
    }
  }

  /** No handler can take a step that changes anything. */
  ghost predicate Quiescent(ms: seq<Announcement>, s: State)
    requires |s.ca| == |s.seen| == |ms|
  {
    && (forall h :: 0 <= h < |ms| ==> CaTurn(ms, s, h) == s)
    && (forall h :: 0 <= h < |s.cb| ==> CbTurn(s, h) == s)
  }

  /** How many CA handlers did not stop. */
  function MatchedCount(ca: seq<CaPc>): nat
  {
    if ca == [] then 0 else MatchedCount(ca[..|ca| - 1]) + if ca[|ca| - 1].Stopped? then 0 else 1
  }

  lemma {:induction false} AllSent(ca: seq<CaPc>)
    requires forall h :: 0 <= h < |ca| ==> ca[h].Sent? || ca[h].Stopped?
    ensures SentCount(ca) == MatchedCount(ca)
  {
    if ca != [] {
      AllSent(ca[..|ca| - 1]);
    }
  }

  lemma {:induction false} SentAreMatched(ca: seq<CaPc>)
    ensures SentCount(ca) <= MatchedCount(ca)
  {
    if ca != [] {
      SentAreMatched(ca[..|ca| - 1]);
    }
  }

  lemma {:induction false} AllPassed(cb: seq<CbPc>)
    ensures PassedCount(cb) <= |cb|
    ensures (forall h :: 0 <= h < |cb| ==> cb[h].Passed?) ==> PassedCount(cb) == |cb|
  {
    if cb != [] {
      AllPassed(cb[..|cb| - 1]);
    }
  }

  /**
   * The handshake never loses a match: once nothing can move any more, the number of CB handlers that
   * passed is the smaller of the number of CB handlers and the number of CA handlers that did not stop.
   */
  lemma EveryMatchLetsOnePass(ms: seq<Announcement>, cbs: nat, local: map<BlockId, Digest>, events: seq<Event>)
    requires Quiescent(ms, Run(ms, cbs, local, events))
    ensures var s := Run(ms, cbs, local, events);
            PassedCount(s.cb) == if MatchedCount(s.ca) < cbs then MatchedCount(s.ca) else cbs
  {
    Reachable(ms, cbs, local, events);
    var s := Run(ms, cbs, local, events);
    SentAreMatched(s.ca);
    AllPassed(s.cb);
    forall h | 0 <= h < |ms|
      ensures s.ca[h].Sent? || s.ca[h].Stopped? || (s.ca[h].AtChannel? && s.stack.Some? && s.channels[0] == 1) {
      assert CaOk(ms[h], s, h) && CaTurn(ms, s, h) == s;
      CaMoves(ms, s, h);
    }
    forall h | 0 <= h < cbs ensures s.cb[h].Passed? || (s.stack.Some? && s.channels[0] == 0) {
      assert CbTurn(s, h) == s;
      CbMoves(s, h);
    }
    if s.stack.None? || s.channels[0] == 0 {
      AllSent(s.ca);
    }
  }

  lemma CaMoves(ms: seq<Announcement>, s: State, h: nat)
    requires |s.ca| == |s.seen| == |ms| && h < |ms| && CaTurn(ms, s, h) == s
    ensures !s.ca[h].Checking? && !s.ca[h].Signed?
    ensures s.ca[h].AtChannel? ==> s.ca[h].ch >= |s.channels| || s.channels[s.ca[h].ch] >= 1
  {
    assert CaTurn(ms, s, h).ca[h] == s.ca[h];
  }

  lemma CbMoves(s: State, h: nat)
    requires h < |s.cb| && CbTurn(s, h) == s
    ensures !s.cb[h].Arrived?
    ensures s.cb[h].Waiting? ==> s.cb[h].ch >= |s.channels| || s.channels[s.cb[h].ch] == 0
  {
    assert CbTurn(s, h).cb[h] == s.cb[h];
  }
}
