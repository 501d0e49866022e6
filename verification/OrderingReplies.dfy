/**
 * All interleavings of the handlers of one block's ordering replies, split where the block's lock is
 * released (vordering.go:268-362).
 */
module OrderingReplies {
  import opened Quorums
  import opened Types
  import opened Signatures

  /** The block and the shares in the replies, one handler each. */
  datatype Config = Config(hash: Digest, booth: Booth, replies: seq<Share>)
  {
    function Threshold(): nat { GetThreshold(|booth.indices|) }
  }

  datatype Pc =
    | Ready
    | Holding(indicator: nat, aggregated: seq<Share>)
    | Recovered(cert: Cert)
    | Recorded(cert: Cert)
    | Finished

  /**
   * `sigs` is the block's share list and `tSig` its stored combined signature; `added` counts how often
   * the block ID was added to the recorder. `arrivals` and `recoveries` remember which handlers
   * appended, in order, and which lists were handed to recovery.
   */
  datatype State = State(sigs: seq<Share>, tSig: Option<Cert>, added: nat, pcs: seq<Pc>,
                         arrivals: seq<nat>, recoveries: seq<seq<Share>>)

  function Initial(c: Config): State
  {
    State([], None, 0, seq(|c.replies|, _ => Ready), [], [])
  }

  /** The next atomic section of handler h. */
  ghost function Step(c: Config, s: State, h: nat): State
    requires |s.pcs| == |c.replies|
  {
    if h >= |s.pcs| then s
    else
      match s.pcs[h]
      case Ready =>
        if |s.sigs| == c.Threshold() then s.(pcs := s.pcs[h := Finished])
        else
          var aggregated := s.sigs + [c.replies[h]];
          s.(sigs := aggregated, pcs := s.pcs[h := Holding(|s.sigs| + 1, aggregated)], arrivals := s.arrivals + [h])
      case Holding(indicator, aggregated) =>
        if indicator != c.Threshold() then s.(pcs := s.pcs[h := Finished])
        else
          var cert := PenRecovery(aggregated, c.hash, c.booth.id, |c.booth.indices|);
          s.(recoveries := s.recoveries + [aggregated],
             pcs := s.pcs[h := if cert.None? then Finished else Recovered(cert.value)])
      case Recovered(cert) => s.(added := s.added + 1, pcs := s.pcs[h := Recorded(cert)])
      case Recorded(cert) => s.(tSig := Some(cert), pcs := s.pcs[h := Finished])
      case Finished => s
  }

  ghost function Run(c: Config, schedule: seq<nat>): (s: State)
    ensures |s.pcs| == |c.replies|
  {
    if schedule == [] then Initial(c) else Step(c, Run(c, schedule[..|schedule| - 1]), schedule[|schedule| - 1])
  }

  ghost predicate ArrivalsOk(c: Config, s: State)
  {
    && |s.pcs| == |c.replies| && |s.arrivals| == |s.sigs| <= c.Threshold()
    && (forall i :: 0 <= i < |s.arrivals| ==> s.arrivals[i] < |c.replies| && s.sigs[i] == c.replies[s.arrivals[i]])
    && (forall i, j :: 0 <= i < j < |s.arrivals| ==> s.arrivals[i] != s.arrivals[j])
  }

  /** What the program counter of handler h says about the list. */
  ghost predicate HandlerOk(c: Config, s: State, h: nat)
    requires h < |s.pcs|
  {
    match s.pcs[h]
    case Ready => h !in s.arrivals
    case Holding(indicator, aggregated) =>
      1 <= indicator <= |s.arrivals| && |s.arrivals| == |s.sigs|
      && s.arrivals[indicator - 1] == h && aggregated == s.sigs[..indicator]
    case Recovered(cert) => Completes(c, s, h)
    && PenRecovery(s.sigs, c.hash, c.booth.id, |c.booth.indices|) == Some(cert)
    case Recorded(cert) => Completes(c, s, h)
    && PenRecovery(s.sigs, c.hash, c.booth.id, |c.booth.indices|) == Some(cert)
    case Finished => h in s.arrivals || |s.sigs| == c.Threshold()
  }

  /** Handler h appended the share that completed the list. */
  ghost predicate Completes(c: Config, s: State, h: nat)
  {
    |s.arrivals| == |s.sigs| == c.Threshold() >= 1 && s.arrivals[|s.sigs| - 1] == h
  }

  /** How far the recovery of the block is, judged by the program counter of the completing handler. */
  ghost predicate ProgressOk(c: Config, s: State)
    requires |s.pcs| == |c.replies|
  {
    if 1 <= c.Threshold() == |s.sigs| == |s.arrivals| && s.arrivals[|s.sigs| - 1] < |s.pcs| then
      var cert := PenRecovery(s.sigs, c.hash, c.booth.id, |c.booth.indices|);
      match s.pcs[s.arrivals[|s.sigs| - 1]]
      case Ready => false
      case Holding(_, _) => s.recoveries == [] && s.added == 0 && s.tSig == None
      case Recovered(_) => s.recoveries == [s.sigs] && s.added == 0 && s.tSig == None
      case Recorded(_) => s.recoveries == [s.sigs] && s.added == 1 && s.tSig == None
      case Finished => s.recoveries == [s.sigs] && s.added == (if cert.Some? then 1 else 0) && s.tSig == cert
    else s.recoveries == [] && s.added == 0 && s.tSig == None
  }

  ghost predicate Inv(c: Config, s: State)
  {
    ArrivalsOk(c, s) && (forall h :: 0 <= h < |s.pcs| ==> HandlerOk(c, s, h)) && ProgressOk(c, s)
  }

  lemma StepKeepsInv(c: Config, s: State, h: nat)
    requires Inv(c, s)
    ensures Inv(c, Step(c, s, h))
  {
    if h < |s.pcs| {
      if s.pcs[h].Ready? && |s.sigs| != c.Threshold() {
        AppendKeepsInv(c, s, h);
      } else {
        StepKeepsHandlers(c, s, h);
        StepKeepsProgress(c, s, h);
      }
    }
  }

  lemma StepKeepsHandlers(c: Config, s: State, h: nat)
    requires Inv(c, s) && h < |s.pcs| && (s.pcs[h].Ready? ==> |s.sigs| == c.Threshold())
    ensures ArrivalsOk(c, Step(c, s, h))
    ensures forall g :: 0 <= g < |s.pcs| ==> HandlerOk(c, Step(c, s, h), g)
  {
    assert HandlerOk(c, s, h);
    if s.pcs[h].Holding? && s.pcs[h].indicator == c.Threshold() {
      assert s.sigs[..s.pcs[h].indicator] == s.sigs && Completes(c, s, h);
    }
    forall g | 0 <= g < |s.pcs| ensures HandlerOk(c, Step(c, s, h), g) {
      assert HandlerOk(c, s, g);
    }
  }

  lemma StepKeepsProgress(c: Config, s: State, h: nat)
    requires Inv(c, s) && h < |s.pcs| && (s.pcs[h].Ready? ==> |s.sigs| == c.Threshold())
    ensures ProgressOk(c, Step(c, s, h))
  {
    assert HandlerOk(c, s, h);
    if s.pcs[h].Holding? && s.pcs[h].indicator == c.Threshold() {
      assert s.pcs[h].aggregated == s.sigs && Completes(c, s, h);
    }
  }

  lemma AppendKeepsInv(c: Config, s: State, h: nat)
    requires Inv(c, s) && h < |s.pcs| && s.pcs[h].Ready? && |s.sigs| != c.Threshold()
    ensures Inv(c, Step(c, s, h))
  {
    var s' := Step(c, s, h);
    assert HandlerOk(c, s, h);
    forall g | 0 <= g < |s'.pcs| ensures HandlerOk(c, s', g) {
      assert HandlerOk(c, s, g);
      if g != h && s.pcs[g].Holding? {
        assert s'.sigs[..s.pcs[g].indicator] == s.sigs[..s.pcs[g].indicator];
      }
      if g == h {
        assert s'.sigs[..|s'.sigs|] == s'.sigs;
      }
    }
  }

  lemma {:induction false} Reachable(c: Config, schedule: seq<nat>)
    ensures Inv(c, Run(c, schedule))
  {
    if schedule != [] {
      Reachable(c, schedule[..|schedule| - 1]);
      StepKeepsInv(c, Run(c, schedule[..|schedule| - 1]), schedule[|schedule| - 1]);
    }
  }

  /**
   * In every interleaving the share list stays within the threshold, at most one handler goes on to
   * recovery, it is the one that completed the list, it hands over exactly the shares of the first
   * `threshold` handlers to append, and the block ID is recorded at most once, and only if they recover.
   */
  lemma OrderedAtMostOnce(c: Config, schedule: seq<nat>)
    ensures var s := Run(c, schedule);
            && |s.sigs| == |s.arrivals| <= c.Threshold()
            && (forall i :: 0 <= i < |s.sigs| ==> s.arrivals[i] < |c.replies| && s.sigs[i] == c.replies[s.arrivals[i]])
            && (forall i, j :: 0 <= i < j < |s.arrivals| ==> s.arrivals[i] != s.arrivals[j])
            && (s.recoveries == [] || (|s.sigs| == c.Threshold() && s.recoveries == [s.sigs]))
            && s.added <= 1
            && (s.added == 1 ==> |s.sigs| == c.Threshold() && ValidShares(s.sigs, c.booth.id, c.hash))
            && (s.tSig.Some? ==> s.added == 1 && s.tSig == PenRecovery(s.sigs, c.hash, c.booth.id, |c.booth.indices|))
  {
    Reachable(c, schedule);
    var s := Run(c, schedule);
    if 1 <= c.Threshold() == |s.sigs| {
      assert HandlerOk(c, s, s.arrivals[|s.sigs| - 1]);
    }
  }

  ghost predicate Quiescent(s: State)
  {
    forall h :: 0 <= h < |s.pcs| ==> s.pcs[h].Finished?
  }

  lemma {:induction false} DistinctBelow(xs: seq<nat>, n: nat) returns (elements: set<nat>)
    requires forall i :: 0 <= i < |xs| ==> xs[i] < n
    requires forall i, j :: 0 <= i < j < |xs| ==> xs[i] != xs[j]
    ensures |elements| == |xs| && elements == (set x | x in xs)
  {
    if xs == [] {
      elements := {};
    } else {
      var init := DistinctBelow(xs[..|xs| - 1], n);
      elements := init + {xs[|xs| - 1]};
    }
  }

  lemma {:induction false} InitialSegment(n: nat) returns (below: set<nat>)
    ensures (forall x: nat :: x in below <==> x < n) && |below| == n
  {
    if n == 0 {
      below := {};
    } else {
      var rest := InitialSegment(n - 1);
      below := rest + {n - 1};
    }
  }

  /**
   * Once all handlers have finished: the list holds min(threshold, number of replies) shares, exactly
   * one recovery was tried if that reached a positive threshold and none otherwise, and the block was
   * recorded and signed if and only if those first shares are valid and of distinct signers.
   */
  lemma OrderedExactly(c: Config, schedule: seq<nat>)
    requires Quiescent(Run(c, schedule))
    ensures var s := Run(c, schedule);
            var complete := 1 <= c.Threshold() <= |c.replies|;
            && |s.sigs| == (if c.Threshold() <= |c.replies| then c.Threshold() else |c.replies|)
            && s.recoveries == (if complete then [s.sigs] else [])
            && s.added == (if complete && ValidShares(s.sigs, c.booth.id, c.hash) then 1 else 0)
            && (s.tSig.Some? <==> s.added == 1)
  {
    Reachable(c, schedule);
    var s := Run(c, schedule);
    var arrived := DistinctBelow(s.arrivals, |c.replies|);
    var all := InitialSegment(|c.replies|);
    assert arrived <= all;
    SubsetSize(arrived, all);
    if |s.sigs| < c.Threshold() {
      forall h | h in all ensures h in arrived {
        assert HandlerOk(c, s, h);
      }
      assert arrived == all;
    } else if c.Threshold() >= 1 {
      assert HandlerOk(c, s, s.arrivals[|s.sigs| - 1]);
    }
  }
}
