/**
 * The interleavings of a validator's handlers for any number of blocks: for each block its OA handler and any
 * number of OB handlers, those that the resend loop of a CA handler calls among them (comply.go:22-76,
 * comply.go:133-176, comply.go:196-202), split at their lock sections. The cmtSnapshot lock is one for all
 * blocks (cache.go:26-29), the job channels are one per block. A second OA handler for a block finds its ID
 * used and ends at once (comply.go:34-38).
 */
module OrderHandshake {

  /**
   * OA: before its first section, between the two sections, or done. The second section needs the
   * cmtSnapshot lock, stores the commit snapshot and sends a token before it unlocks.
   */
  datatype OaPc = OaStart | OaBetween | OaDone

  /**
   * OB, its signature verified: before looking into ordSnapshot; having seen the block there, or, on a resend
   * only, not having seen it, in both cases before taking the cmtSnapshot lock; waiting for a token with that
   * lock held; done storing; or gone because the block is unknown.
   */
  datatype ObPc = ObStart | ObSeen | ObUnseen | ObWaiting | ObStored | ObUnknown

  /** A block's OA handler, its presence in the two caches, and the tokens in its channel. */
  datatype Block = Block(oa: OaPc, inOrd: bool, inCmt: bool, tokens: nat)

  datatype State = State(blocks: seq<Block>, obs: seq<ObPc>)

  /** An OB handler: the index of its block, and whether it was called for a resent entry. */
  datatype Handler = Handler(block: nat, resent: bool)

  /** The OA handler of a block or OB handler h takes its turn. */
  datatype Event = OaEvent(block: nat) | ObEvent(h: nat)

  function Initial(blocks: nat, handlers: nat): State
  {
    State(seq(blocks, _ => Block(OaStart, false, false, 0)), seq(handlers, _ => ObStart))
  }

  ghost predicate Waits(s: State, h: nat)
  {
    h < |s.obs| && s.obs[h].ObWaiting?
  }

  /** Only a waiting OB handler, of whatever block, keeps the cmtSnapshot lock across steps. */
  ghost predicate CmtLocked(s: State)
  {
    exists h :: Waits(s, h)
  }

  ghost function OaTurn(s: State, b: nat): State
  {
    if b >= |s.blocks| then s
    else
      var k := s.blocks[b];
      match k.oa
      case OaStart => s.(blocks := s.blocks[b := k.(oa := OaBetween, inOrd := true)])
      case OaBetween =>
        if CmtLocked(s) then s
        else s.(blocks := s.blocks[b := k.(oa := OaDone, inCmt := true, tokens := k.tokens + 1)])
      case OaDone => s
  }

  ghost function ObTurn(hs: seq<Handler>, s: State, h: nat): State
  {
    if h >= |s.obs| || h >= |hs| || hs[h].block >= |s.blocks| then s
    else
      var b := hs[h].block;
      var k := s.blocks[b];
      match s.obs[h]
      case ObStart =>
        s.(obs := s.obs[h := if k.inOrd then ObSeen else if hs[h].resent then ObUnseen else ObUnknown])
      case ObSeen => if CmtLocked(s) then s else s.(obs := s.obs[h := if k.inCmt then ObStored else ObWaiting])
      case ObUnseen =>
        if CmtLocked(s) then s else State(s.blocks[b := k.(inCmt := true)], s.obs[h := ObStored])
      case ObWaiting =>
        if k.tokens == 0 then s else State(s.blocks[b := k.(tokens := k.tokens - 1)], s.obs[h := ObStored])
      case ObStored => s
      case ObUnknown => s
  }

  ghost function Turn(hs: seq<Handler>, s: State, e: Event): State
  {
    match e
    case OaEvent(b) => OaTurn(s, b)
    case ObEvent(h) => ObTurn(hs, s, h)
  }

  ghost function Run(blocks: nat, hs: seq<Handler>, schedule: seq<Event>): (s: State)
    ensures |s.obs| == |hs| && |s.blocks| == blocks
  {
    if schedule == [] then Initial(blocks, |hs|)
    else Turn(hs, Run(blocks, hs, schedule[..|schedule| - 1]), schedule[|schedule| - 1])
  }

  ghost predicate BlockOk(k: Block)
  {
    (k.inOrd <==> !k.oa.OaStart?) && (k.oa.OaDone? ==> k.inCmt) && (k.tokens > 0 ==> k.inCmt)
  }

  /** A handler waits only for a block whose OA is between its sections and that has no commit snapshot yet. */
  ghost predicate HandlerOk(hs: seq<Handler>, s: State, h: nat)
    requires h < |s.obs| == |hs|
  {
    && (s.obs[h].ObSeen? ==> hs[h].block < |s.blocks| && s.blocks[hs[h].block].inOrd)
    && (s.obs[h].ObWaiting? ==>
          hs[h].block < |s.blocks| && s.blocks[hs[h].block].oa.OaBetween? && !s.blocks[hs[h].block].inCmt)
  }

  ghost predicate Inv(hs: seq<Handler>, s: State)
  {
    && |s.obs| == |hs|
    && (forall b :: 0 <= b < |s.blocks| ==> BlockOk(s.blocks[b]))
    && (forall h :: 0 <= h < |s.obs| ==> HandlerOk(hs, s, h))
  }

  lemma TurnKeepsInv(hs: seq<Handler>, s: State, e: Event)
    requires Inv(hs, s)
    ensures Inv(hs, Turn(hs, s, e))
  {
    var s' := Turn(hs, s, e);
    if e.ObEvent? && e.h < |s.obs| {
      assert HandlerOk(hs, s, e.h);
    }
    forall h | 0 <= h < |s'.obs| ensures HandlerOk(hs, s', h) {
      assert HandlerOk(hs, s, h);
      assert s.obs[h].ObWaiting? ==> Waits(s, h) && CmtLocked(s);
    }
  }

  lemma {:induction false} Reachable(blocks: nat, hs: seq<Handler>, schedule: seq<Event>)
    ensures Inv(hs, Run(blocks, hs, schedule))
  {
    if schedule != [] {
      Reachable(blocks, hs, schedule[..|schedule| - 1]);
      TurnKeepsInv(hs, Run(blocks, hs, schedule[..|schedule| - 1]), schedule[|schedule| - 1]);
    }
  }

  /**
   * At turn i a handler that saw its block in ordSnapshot takes the cmtSnapshot lock, which is free, and finds
   * no commit snapshot of the block.
   */
  ghost predicate LocksTooEarly(blocks: nat, hs: seq<Handler>, schedule: seq<Event>, i: nat)
  {
    && i < |schedule| && schedule[i].ObEvent? && schedule[i].h < |hs| && hs[schedule[i].h].block < blocks
    && var s := Run(blocks, hs, schedule[..i]);
       s.obs[schedule[i].h].ObSeen? && !CmtLocked(s) && !s.blocks[hs[schedule[i].h].block].inCmt
  }

  /** A handler of some block does. */
  ghost predicate SomeLocksTooEarly(blocks: nat, hs: seq<Handler>, schedule: seq<Event>)
  {
    exists i: nat :: LocksTooEarly(blocks, hs, schedule, i)
  }

  ghost predicate WaitsForever(blocks: nat, hs: seq<Handler>, schedule: seq<Event>, h: nat)
  {
    forall more: seq<Event> :: Waits(Run(blocks, hs, schedule + more), h)
  }

  /**
   * The wait of comply.go:164-173 is never answered: the handler waits with the lock that its OA needs to store
   * the snapshot and send the token. So some handler waits forever in exactly the runs in which one that saw its
   * block takes the lock while there is no commit snapshot of it. A resend that stores one first averts it.
   */
  lemma DeadlockExactly(blocks: nat, hs: seq<Handler>, schedule: seq<Event>)
    ensures (exists h: nat :: WaitsForever(blocks, hs, schedule, h)) <==> SomeLocksTooEarly(blocks, hs, schedule)
  {
    WaitingExactly(blocks, hs, schedule);
    if SomeLocksTooEarly(blocks, hs, schedule) {
      var h: nat :| Waits(Run(blocks, hs, schedule), h);
      forall more: seq<Event> ensures Waits(Run(blocks, hs, schedule + more), h) {
        DeadlockLasts(blocks, hs, schedule, more, h);
      }
      assert WaitsForever(blocks, hs, schedule, h);
    }
    if h: nat :| WaitsForever(blocks, hs, schedule, h) {
      var none: seq<Event> := [];
      assert schedule + none == schedule;
      assert Waits(Run(blocks, hs, schedule + none), h);
    }
  }

  lemma LocksPrefix(blocks: nat, hs: seq<Handler>, schedule: seq<Event>, n: nat, i: nat)
    requires n <= |schedule| && i < n
    ensures LocksTooEarly(blocks, hs, schedule[..n], i) <==> LocksTooEarly(blocks, hs, schedule, i)
  {
    assert schedule[..n][..i] == schedule[..i];
  }

  lemma {:induction false} WaitingExactly(blocks: nat, hs: seq<Handler>, schedule: seq<Event>)
    ensures CmtLocked(Run(blocks, hs, schedule)) <==> SomeLocksTooEarly(blocks, hs, schedule)
  {
    if schedule == [] {
      assert forall h :: !Waits(Initial(blocks, |hs|), h);
    } else {
      var n := |schedule| - 1;
      var init := schedule[..n];
      WaitingExactly(blocks, hs, init);
      Reachable(blocks, hs, init);
      forall i: nat | i < n ensures LocksTooEarly(blocks, hs, init, i) <==> LocksTooEarly(blocks, hs, schedule, i) {
        LocksPrefix(blocks, hs, schedule, n, i);
      }
      LastTurn(blocks, hs, schedule);
      if SomeLocksTooEarly(blocks, hs, init) {
        var i: nat :| LocksTooEarly(blocks, hs, init, i);
        assert LocksTooEarly(blocks, hs, schedule, i);
      }
      if i: nat :| LocksTooEarly(blocks, hs, schedule, i) && i < n {
        assert LocksTooEarly(blocks, hs, init, i);
      }
    }
  }

  lemma WaitLasts(hs: seq<Handler>, s: State, e: Event, h: nat)
    requires Inv(hs, s) && Waits(s, h)
    ensures Waits(Turn(hs, s, e), h)
  {
    assert HandlerOk(hs, s, h) && BlockOk(s.blocks[hs[h].block]) && CmtLocked(s);
  }

  /** After the last turn the lock is kept if it was before or that turn took it too early. */
  lemma LastTurn(blocks: nat, hs: seq<Handler>, schedule: seq<Event>)
    requires schedule != [] && Inv(hs, Run(blocks, hs, schedule[..|schedule| - 1]))
    ensures CmtLocked(Run(blocks, hs, schedule))
       <==> CmtLocked(Run(blocks, hs, schedule[..|schedule| - 1]))
            || LocksTooEarly(blocks, hs, schedule, |schedule| - 1)
  {
    var n := |schedule| - 1;
    var s, s' := Run(blocks, hs, schedule[..n]), Run(blocks, hs, schedule);
    if h: nat :| Waits(s, h) {
      WaitLasts(hs, s, schedule[n], h);
    }
    if LocksTooEarly(blocks, hs, schedule, n) {
      assert Waits(s', schedule[n].h);
    }
    if h: nat :| Waits(s', h) && !Waits(s, h) {
      assert LocksTooEarly(blocks, hs, schedule, n);
    }
  }

  /** A wait lasts, and while it does no OA of any block gets past its second section. */
  lemma {:induction false} DeadlockLasts(blocks: nat, hs: seq<Handler>, schedule: seq<Event>, more: seq<Event>, h: nat)
    requires Waits(Run(blocks, hs, schedule), h)
    ensures Waits(Run(blocks, hs, schedule + more), h)
    ensures forall b :: 0 <= b < blocks && Run(blocks, hs, schedule + more).blocks[b].oa.OaDone? ==>
                          Run(blocks, hs, schedule).blocks[b].oa.OaDone?
  {
    if more == [] {
      assert schedule + more == schedule;
    } else {
      var n := |more| - 1;
      var s := Run(blocks, hs, schedule + more[..n]);
      DeadlockLasts(blocks, hs, schedule, more[..n], h);
      Reachable(blocks, hs, schedule + more[..n]);
      WaitLasts(hs, s, more[n], h);
      assert CmtLocked(s);
      assert schedule + more == (schedule + more[..n]) + [more[n]];
      Snoc(blocks, hs, schedule + more[..n], more[n]);
    }
  }

  // ----- When nothing can move any more -----

  ghost predicate Quiescent(hs: seq<Handler>, s: State)
  {
    && (forall b :: 0 <= b < |s.blocks| ==> OaTurn(s, b) == s)
    && (forall h :: 0 <= h < |s.obs| ==> ObTurn(hs, s, h) == s)
  }

  /** All handlers of all blocks have ended. */
  predicate Finished(s: State)
  {
    && (forall b :: 0 <= b < |s.blocks| ==> s.blocks[b].oa.OaDone?)
    && (forall h :: 0 <= h < |s.obs| ==> s.obs[h].ObStored? || s.obs[h].ObUnknown?)
  }

  lemma FreeOaEnds(s: State, b: nat)
    requires b < |s.blocks| && OaTurn(s, b) == s && !CmtLocked(s)
    ensures s.blocks[b].oa.OaDone?
  {
    assert OaTurn(s, b).blocks[b] == s.blocks[b];
  }

  lemma FreeObEnds(hs: seq<Handler>, s: State, h: nat)
    requires h < |s.obs| == |hs| && hs[h].block < |s.blocks| && ObTurn(hs, s, h) == s && !CmtLocked(s)
    ensures s.obs[h].ObStored? || s.obs[h].ObUnknown?
  {
    assert !Waits(s, h) && ObTurn(hs, s, h).obs[h] == s.obs[h];
  }

  /**
   * When nothing can move any more, all handlers of all blocks have ended if and only if none of any block took
   * the lock too early.
   */
  lemma FinishedExactly(blocks: nat, hs: seq<Handler>, schedule: seq<Event>)
    requires forall h :: 0 <= h < |hs| ==> hs[h].block < blocks
    requires Quiescent(hs, Run(blocks, hs, schedule))
    ensures Finished(Run(blocks, hs, schedule)) <==> !SomeLocksTooEarly(blocks, hs, schedule)
  {
    WaitingExactly(blocks, hs, schedule);
    var s := Run(blocks, hs, schedule);
    if CmtLocked(s) {
      var h: nat :| Waits(s, h);
      assert s.obs[h].ObWaiting?;
    } else {
      forall b | 0 <= b < |s.blocks| ensures s.blocks[b].oa.OaDone? {
        FreeOaEnds(s, b);
      }
      forall h | 0 <= h < |s.obs| ensures s.obs[h].ObStored? || s.obs[h].ObUnknown? {
        FreeObEnds(hs, s, h);
      }
    }
  }

  // ----- Schedules -----

  lemma Snoc(blocks: nat, hs: seq<Handler>, schedule: seq<Event>, e: Event)
    ensures Run(blocks, hs, schedule + [e]) == Turn(hs, Run(blocks, hs, schedule), e)
  {
    assert (schedule + [e])[..|schedule + [e]| - 1] == schedule;
  }

  /** One block, one OB handler: OA's first section, then OB looks and takes the lock. */
  lemma DeadlockSchedule()
    ensures exists h: nat :: WaitsForever(1, [Handler(0, false)], [OaEvent(0), ObEvent(0), ObEvent(0)], h)
  {
    var hs := [Handler(0, false)];
    var none: seq<Event> := [];
    assert Run(1, hs, none).obs == [ObStart];
    Snoc(1, hs, none, OaEvent(0));
    assert none + [OaEvent(0)] == [OaEvent(0)];
    Snoc(1, hs, [OaEvent(0)], ObEvent(0));
    assert [OaEvent(0)] + [ObEvent(0)] == [OaEvent(0), ObEvent(0)];
    var s2 := Run(1, hs, [OaEvent(0), ObEvent(0)]);
    assert s2.obs == [ObSeen] && !CmtLocked(s2);
    assert [OaEvent(0), ObEvent(0), ObEvent(0)][..2] == [OaEvent(0), ObEvent(0)];
    assert LocksTooEarly(1, hs, [OaEvent(0), ObEvent(0), ObEvent(0)], 2);
    DeadlockExactly(1, hs, [OaEvent(0), ObEvent(0), ObEvent(0)]);
  }

  /**
   * A second block, whose own handlers lock nothing too early, is held up by the first: its OA handler never
   * gets to its second section, whatever happens.
   */
  lemma HoldsUpOthers(more: seq<Event>)
    ensures var s := Run(2, [Handler(0, false)], [OaEvent(0), ObEvent(0), ObEvent(0)] + more);
            !s.blocks[1].oa.OaDone?
  {
    var hs := [Handler(0, false)];
    var none: seq<Event> := [];
    var s0 := Run(2, hs, none);
    assert s0.obs == [ObStart];
    Snoc(2, hs, none, OaEvent(0));
    var s1 := Run(2, hs, none + [OaEvent(0)]);
    assert s1.blocks[0].inOrd && s1.blocks[1] == s0.blocks[1];
    Snoc(2, hs, none + [OaEvent(0)], ObEvent(0));
    var s2 := Run(2, hs, none + [OaEvent(0)] + [ObEvent(0)]);
    assert s2.obs == [ObSeen] && !CmtLocked(s2) && s2.blocks == s1.blocks;
    Snoc(2, hs, none + [OaEvent(0)] + [ObEvent(0)], ObEvent(0));
    var schedule := none + [OaEvent(0)] + [ObEvent(0)] + [ObEvent(0)];
    assert schedule == [OaEvent(0), ObEvent(0), ObEvent(0)];
    assert Waits(Run(2, hs, schedule), 0);
    DeadlockLasts(2, hs, schedule, more, 0);
  }

  /** A resend, handler 1, looks before OA's first section and stores the snapshot after it. */
  lemma ResendStores() returns (schedule: seq<Event>)
    ensures schedule == [ObEvent(1), OaEvent(0), ObEvent(1)]
    ensures Run(1, [Handler(0, false), Handler(0, true)], schedule)
         == State([Block(OaBetween, true, true, 0)], [ObStart, ObStored])
  {
    var hs := [Handler(0, false), Handler(0, true)];
    var none: seq<Event> := [];
    assert Run(1, hs, none) == State([Block(OaStart, false, false, 0)], [ObStart, ObStart]);
    Snoc(1, hs, none, ObEvent(1));
    Snoc(1, hs, none + [ObEvent(1)], OaEvent(0));
    var s2 := Run(1, hs, none + [ObEvent(1)] + [OaEvent(0)]);
    assert s2 == State([Block(OaBetween, true, false, 0)], [ObStart, ObUnseen]) && !CmtLocked(s2);
    Snoc(1, hs, none + [ObEvent(1)] + [OaEvent(0)], ObEvent(1));
    schedule := none + [ObEvent(1)] + [OaEvent(0)] + [ObEvent(1)];
    assert Run(1, hs, schedule) == State([Block(OaBetween, true, true, 0)], [ObStart, ObStored]);
  }

  /**
   * OB takes the lock between OA's sections, as in the deadlock, but a resend has stored the commit snapshot by
   * then: all handlers end.
   */
  lemma ResendAverts() returns (schedule: seq<Event>)
    ensures schedule == [ObEvent(1), OaEvent(0), ObEvent(1), ObEvent(0), ObEvent(0), OaEvent(0)]
    ensures Finished(Run(1, [Handler(0, false), Handler(0, true)], schedule))
    ensures !SomeLocksTooEarly(1, [Handler(0, false), Handler(0, true)], schedule)
  {
    var hs := [Handler(0, false), Handler(0, true)];
    var first := ResendStores();
    Snoc(1, hs, first, ObEvent(0));
    var s4 := Run(1, hs, first + [ObEvent(0)]);
    assert s4 == State([Block(OaBetween, true, true, 0)], [ObSeen, ObStored]) && !CmtLocked(s4);
    Snoc(1, hs, first + [ObEvent(0)], ObEvent(0));
    var s5 := Run(1, hs, first + [ObEvent(0)] + [ObEvent(0)]);
    assert s5 == State([Block(OaBetween, true, true, 0)], [ObStored, ObStored]) && !CmtLocked(s5);
    Snoc(1, hs, first + [ObEvent(0)] + [ObEvent(0)], OaEvent(0));
    schedule := first + [ObEvent(0)] + [ObEvent(0)] + [OaEvent(0)];
    assert Run(1, hs, schedule) == State([Block(OaDone, true, true, 1)], [ObStored, ObStored]);
    WaitingExactly(1, hs, schedule);
  }
}
