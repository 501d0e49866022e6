/**
 * The recorder of ordered block IDs and the polling of it by the consensus loop (vordering.go:11-39,
 * vconsensus.go:7-46).
 */
module IdRecorders {
  import opened Types

  datatype Recorder = Recorder(blockIDs: seq<BlockId>, lastIdx: nat)
  {
    ghost predicate Valid() { lastIdx <= |blockIDs| }

    function Unread(): seq<BlockId>
      requires Valid()
    {
      blockIDs[lastIdx..]
    }
  }

  datatype Op = Add(id: BlockId) | Poll

  /** The lock makes the two operations atomic, so a concurrent use is a sequence of them. */
  function Apply(r: Recorder, op: Op): (Recorder, seq<seq<BlockId>>)
    requires r.Valid()
  {
    match op
    case Add(id) => (Recorder(r.blockIDs + [id], r.lastIdx), [])
    case Poll => (Recorder(r.blockIDs, |r.blockIDs|), [r.Unread()])
  }

  /** The recorder after `ops` and the ranges that the polls among them returned, in order. */
  function ApplyAll(r: Recorder, ops: seq<Op>): (out: (Recorder, seq<seq<BlockId>>))
    requires r.Valid()
    ensures out.0.Valid()
  {
    if ops == [] then (r, [])
    else
      var (r1, out1) := ApplyAll(r, ops[..|ops| - 1]);
      var (r2, out2) := Apply(r1, ops[|ops| - 1]);
      (r2, out1 + out2)
  }

  function Added(ops: seq<Op>): seq<BlockId>
  {
    if ops == [] then []
    else Added(ops[..|ops| - 1]) + (if ops[|ops| - 1].Add? then [ops[|ops| - 1].id] else [])
  }

  /** Ranges returned so far, then the unread tail: exactly what was recorded, in recording order. */
  lemma {:induction false} RangesConserveIds(r: Recorder, ops: seq<Op>)
    requires r.Valid()
    ensures var (r', ranges) := ApplyAll(r, ops);
            && r'.blockIDs == r.blockIDs + Added(ops)
            && Flatten(ranges) + r'.Unread() == r.Unread() + Added(ops)
  {
    if ops != [] {
      var init := ops[..|ops| - 1];
      RangesConserveIds(r, init);
      var (r1, out1) := ApplyAll(r, init);
      if ops[|ops| - 1].Poll? {
        FlattenConcat(out1, [r1.Unread()]);
        assert Flatten([r1.Unread()]) == r1.Unread();
      } else {
        var (r', _) := ApplyAll(r, ops);
        assert out1 + [] == out1;
        assert r'.Unread() == r1.Unread() + [ops[|ops| - 1].id];
        assert Flatten(out1) + (r1.Unread() + [ops[|ops| - 1].id])
               == (Flatten(out1) + r1.Unread()) + [ops[|ops| - 1].id];
      }
    }
  }

  /** When no ID is recorded twice, each recorded ID is in exactly one returned range or still unread. */
  lemma EachIdInOneRange(ops: seq<Op>, id: BlockId)
    requires Distinct(Added(ops)) && id in Added(ops)
    ensures var (r, ranges) := ApplyAll(Recorder([], 0), ops);
            && (forall i, j :: 0 <= i < |ranges| && 0 <= j < |ranges| && id in ranges[i] && id in ranges[j] ==> i == j)
            && ((exists i :: 0 <= i < |ranges| && id in ranges[i]) <==> id !in r.Unread())
  {
    var (r, ranges) := ApplyAll(Recorder([], 0), ops);
    RangesConserveIds(Recorder([], 0), ops);
    var parts := ranges + [r.Unread()];
    FlattenConcat(ranges, [r.Unread()]);
    assert Flatten([r.Unread()]) == r.Unread();
    assert Flatten(parts) == Added(ops);
    FlattenMember(ranges, id);
    assert id in Flatten(ranges) || id in r.Unread();
    forall i, j | 0 <= i < |parts| && 0 <= j < |parts| && id in parts[i] && id in parts[j] ensures i == j {
      FlattenDistinct(parts, i, j, id);
    }
    forall i | 0 <= i < |ranges| && id in ranges[i] ensures id !in r.Unread() {
      assert parts[i] == ranges[i] && parts[|ranges|] == r.Unread();
    }
    forall i, j | 0 <= i < |ranges| && 0 <= j < |ranges| && id in ranges[i] && id in ranges[j] ensures i == j {
      assert parts[i] == ranges[i] && parts[j] == ranges[j];
    }
  }

  class IdRecorder {
    var blockIDs: seq<BlockId>
    var lastIdx: nat

    ghost predicate Valid()
      reads this
    {
      View().Valid()
    }

    function View(): Recorder
      reads this
    {
      Recorder(blockIDs, lastIdx)
    }

    constructor ()
      ensures Valid() && View() == Recorder([], 0)
    {
      blockIDs, lastIdx := [], 0;
    }

    method Record(id: BlockId)
      requires Valid()
      modifies this
      ensures Valid() && View() == Apply(old(View()), Add(id)).0
    {
      blockIDs := blockIDs + [id];
    }

    method GetIDRange() returns (range: seq<BlockId>)
      requires Valid()
      modifies this
      ensures Valid() && View() == Apply(old(View()), Poll).0 && range == old(View()).Unread()
    {
      var curIdx := |blockIDs|;
      range := [];
      var i := lastIdx;
      while i < curIdx
        invariant lastIdx <= i <= curIdx == |blockIDs|
        invariant blockIDs == old(blockIDs) && lastIdx == old(lastIdx)
        invariant range == blockIDs[lastIdx..i]
      {
        range := range + [blockIDs[i]];
        i := i + 1;
      }
      lastIdx := curIdx;
    }
  }

  // ----- The consensus loop over the recorder -----

  /**
   * What a run of the loop did: how often it polled, which (instance ID, range) pairs it started,
   * whether it gave up waiting, and the recorder it left.
   */
  datatype LoopRun = LoopRun(polls: nat, instances: seq<(InstId, seq<BlockId>)>, gaveUp: bool, rec: Recorder)

  function Before(polls: nat, instances: seq<(InstId, seq<BlockId>)>, run: LoopRun): LoopRun
  {
    LoopRun(polls + run.polls, instances + run.instances, run.gaveUp, run.rec)
  }

  /**
   * The loop, when `arrivals[k]` are the IDs recorded between its polls k-1 and k. `waited` is never
   * reset (vconsensus.go:38), so it counts the empty polls of the whole run.
   */
  function Loop(rec: Recorder, arrivals: seq<seq<BlockId>>, waited: nat, inst: InstId, waitLimit: int): LoopRun
    requires rec.Valid()
    decreases |arrivals|
  {
    if arrivals == [] then LoopRun(0, [], false, rec)
    else
      var range := rec.Unread() + arrivals[0];
      var all := rec.blockIDs + arrivals[0];
      var rec' := Recorder(all, |all|);
      if range != [] then Before(1, [(inst, range)], Loop(rec', arrivals[1..], waited, inst + 1, waitLimit))
      else if waited + 1 < waitLimit then Before(1, [], Loop(rec', arrivals[1..], waited + 1, inst, waitLimit))
      else LoopRun(1, [], true, rec')
  }

  /** One turn further on in a loop that has made `polls` polls and started `instances`. */
  lemma NextTurn(rec: Recorder, arrivals: seq<seq<BlockId>>, polls: nat, instances: seq<(InstId, seq<BlockId>)>,
                 waited: nat, inst: InstId, waitLimit: int)
    requires rec.Valid() && polls < |arrivals|
    ensures var range := rec.Unread() + arrivals[polls];
            var all := rec.blockIDs + arrivals[polls];
            var rec', later := Recorder(all, |all|), arrivals[polls + 1..];
            Before(polls, instances, Loop(rec, arrivals[polls..], waited, inst, waitLimit)) ==
            if range != [] then
              Before(polls + 1, instances + [(inst, range)], Loop(rec', later, waited, inst + 1, waitLimit))
            else if waited + 1 < waitLimit then
              Before(polls + 1, instances, Loop(rec', later, waited + 1, inst, waitLimit))
            else LoopRun(polls + 1, instances, true, rec')
  {
    assert arrivals[polls..][0] == arrivals[polls] && arrivals[polls..][1..] == arrivals[polls + 1..];
    var range := rec.Unread() + arrivals[polls];
    var all := rec.blockIDs + arrivals[polls];
    var rec' := Recorder(all, |all|);
    if range != [] {
      BeforeTwice(polls, instances, [(inst, range)], Loop(rec', arrivals[polls + 1..], waited, inst + 1, waitLimit));
    } else if waited + 1 < waitLimit {
      BeforeTwice(polls, instances, [], Loop(rec', arrivals[polls + 1..], waited + 1, inst, waitLimit));
      assert instances + [] == instances;
    } else {
      assert instances + [] == instances;
    }
  }

  lemma BeforeTwice(polls: nat, a: seq<(InstId, seq<BlockId>)>, b: seq<(InstId, seq<BlockId>)>, run: LoopRun)
    ensures Before(polls, a, Before(1, b, run)) == Before(polls + 1, a + b, run)
  {
    assert a + (b + run.instances) == (a + b) + run.instances;
  }

  method ConsensusLoop(r: IdRecorder, arrivals: seq<seq<BlockId>>, waitLimit: int) returns (run: LoopRun)
    requires r.Valid()
    modifies r
    ensures r.Valid() && run.rec == r.View()
    ensures run == Loop(old(r.View()), arrivals, 0, 0, waitLimit)
  {
    var consInstID, waited, polls := 0, 0, 0;
    var instances := [];
    assert arrivals[0..] == arrivals;
    while polls < |arrivals|
      invariant r.Valid() && polls <= |arrivals|
      invariant Loop(old(r.View()), arrivals, 0, 0, waitLimit)
                == Before(polls, instances, Loop(r.View(), arrivals[polls..], waited, consInstID, waitLimit))
    {
      NextTurn(r.View(), arrivals, polls, instances, waited, consInstID, waitLimit);
      var range := PollAfter(r, arrivals[polls]);
      polls := polls + 1;
      if range == [] {
        waited := waited + 1;
        if waited < waitLimit {
          continue;
        }
        return LoopRun(polls, instances, true, r.View());
      }
      instances := instances + [(consInstID, range)];
      consInstID := consInstID + 1;
    }
    run := LoopRun(polls, instances, false, r.View());
    assert instances + [] == instances;
  }

  /** What the next poll finds once `ids` have been recorded too. */
  method PollAfter(r: IdRecorder, ids: seq<BlockId>) returns (range: seq<BlockId>)
    requires r.Valid()
    modifies r
    ensures r.Valid() && range == old(r.View().Unread()) + ids
    ensures r.blockIDs == old(r.blockIDs) + ids && r.lastIdx == |r.blockIDs|
  {
    RecordAll(r, ids);
    range := r.GetIDRange();
  }

  method RecordAll(r: IdRecorder, ids: seq<BlockId>)
    requires r.Valid()
    modifies r
    ensures r.Valid() && r.View() == Recorder(old(r.blockIDs) + ids, old(r.lastIdx))
  {
    for i := 0 to |ids|
      invariant r.Valid() && r.View() == Recorder(old(r.blockIDs) + ids[..i], old(r.lastIdx))
    {
      r.Record(ids[i]);
    }
    assert ids[..|ids|] == ids;
  }

  function Max(a: int, b: int): int { if a < b then b else a }

  /** Every poll but the last max(1, waitLimit - waited) empty ones consumes a block. */
  lemma {:induction false} LoopTerminates(rec: Recorder, arrivals: seq<seq<BlockId>>, waited: nat, inst: InstId,
                                          waitLimit: int)
    requires rec.Valid()
    ensures var run := Loop(rec, arrivals, waited, inst, waitLimit);
            var blocks := |rec.Unread()| + |Flatten(arrivals)|;
            && run.polls <= blocks + Max(1, waitLimit - waited)
            && (|arrivals| >= blocks + Max(1, waitLimit - waited) ==> run.gaveUp)
    decreases |arrivals|
  {
    if arrivals != [] {
      var range := rec.Unread() + arrivals[0];
      var all := rec.blockIDs + arrivals[0];
      var rec' := Recorder(all, |all|);
      FlattenFirst(arrivals, |arrivals|);
      assert arrivals[..|arrivals|] == arrivals && arrivals[1..][..|arrivals| - 1] == arrivals[1..];
      if range != [] {
        LoopTerminates(rec', arrivals[1..], waited, inst + 1, waitLimit);
      } else if waited + 1 < waitLimit {
        LoopTerminates(rec', arrivals[1..], waited + 1, inst, waitLimit);
      }
    }
  }

  ghost function Ranges(instances: seq<(InstId, seq<BlockId>)>): seq<seq<BlockId>>
  {
    seq(|instances|, i requires 0 <= i < |instances| => instances[i].1)
  }

  /** The instance IDs are consecutive, one per non-empty range; the loop stops early only by giving up. */
  lemma {:induction false} InstanceIdsConsecutive(rec: Recorder, arrivals: seq<seq<BlockId>>, waited: nat,
                                                  inst: InstId, waitLimit: int)
    requires rec.Valid()
    ensures var run := Loop(rec, arrivals, waited, inst, waitLimit);
            && run.polls <= |arrivals| && (run.polls < |arrivals| ==> run.gaveUp)
            && (forall i :: 0 <= i < |run.instances| ==> run.instances[i].0 == inst + i && run.instances[i].1 != [])
    decreases |arrivals|
  {
    if arrivals != [] {
      var range := rec.Unread() + arrivals[0];
      var all := rec.blockIDs + arrivals[0];
      var rec' := Recorder(all, |all|);
      if range != [] {
        InstanceIdsConsecutive(rec', arrivals[1..], waited, inst + 1, waitLimit);
      } else if waited + 1 < waitLimit {
        InstanceIdsConsecutive(rec', arrivals[1..], waited + 1, inst, waitLimit);
      }
    }
  }

  /** What has been recorded but not read, and the instances, after a run over `polled`. */
  ghost predicate Covers(run: LoopRun, unread: seq<BlockId>, polled: seq<seq<BlockId>>)
  {
    run.rec.Valid() && Flatten(Ranges(run.instances)) + run.rec.Unread() == unread + Flatten(polled)
  }

  /**
   * The instances' ranges in order are exactly what was recorded by the polls the loop made, and
   * nothing recorded by then stays unread; blocks recorded after the loop gave up are in no instance.
   */
  lemma {:induction false} InstancesCoverBlocks(rec: Recorder, arrivals: seq<seq<BlockId>>, waited: nat, inst: InstId,
                                                waitLimit: int)
    requires rec.Valid()
    ensures var run := Loop(rec, arrivals, waited, inst, waitLimit);
            && run.polls <= |arrivals| && Covers(run, rec.Unread(), arrivals[..run.polls])
            && (run.polls > 0 ==> run.rec.Unread() == [])
    decreases |arrivals|
  {
    if arrivals == [] {
      assert Flatten(arrivals[..0]) == [] && Flatten(Ranges([])) == [];
    } else {
      var range := rec.Unread() + arrivals[0];
      var all := rec.blockIDs + arrivals[0];
      var rec' := Recorder(all, |all|);
      assert rec'.Unread() == [];
      if range != [] {
        InstancesCoverBlocks(rec', arrivals[1..], waited, inst + 1, waitLimit);
        StartedCovers(rec, arrivals, inst, range, Loop(rec', arrivals[1..], waited, inst + 1, waitLimit));
      } else if waited + 1 < waitLimit {
        InstancesCoverBlocks(rec', arrivals[1..], waited + 1, inst, waitLimit);
        WaitedCovers(rec, arrivals, Loop(rec', arrivals[1..], waited + 1, inst, waitLimit));
      } else {
        GaveUpCovers(rec, arrivals, rec');
      }
    }
  }

  lemma StartedCovers(rec: Recorder, arrivals: seq<seq<BlockId>>, inst: InstId, range: seq<BlockId>, later: LoopRun)
    requires rec.Valid() && arrivals != [] && range == rec.Unread() + arrivals[0]
    requires later.polls < |arrivals| && Covers(later, [], arrivals[1..][..later.polls])
    ensures Covers(Before(1, [(inst, range)], later), rec.Unread(), arrivals[..later.polls + 1])
  {
    FlattenFirst(arrivals, later.polls + 1);
    RangesFirst(inst, range, later.instances);
    Associates(range, Flatten(Ranges(later.instances)), later.rec.Unread());
    Associates(rec.Unread(), arrivals[0], Flatten(arrivals[1..][..later.polls]));
  }

  lemma WaitedCovers(rec: Recorder, arrivals: seq<seq<BlockId>>, later: LoopRun)
    requires rec.Valid() && arrivals != [] && rec.Unread() == [] == arrivals[0]
    requires later.polls < |arrivals| && Covers(later, [], arrivals[1..][..later.polls])
    ensures Covers(Before(1, [], later), rec.Unread(), arrivals[..later.polls + 1])
  {
    FlattenFirst(arrivals, later.polls + 1);
    assert [] + later.instances == later.instances;
  }

  lemma GaveUpCovers(rec: Recorder, arrivals: seq<seq<BlockId>>, rec': Recorder)
    requires rec.Valid() && arrivals != [] && rec.Unread() == [] == arrivals[0] && rec'.Valid() && rec'.Unread() == []
    ensures Covers(LoopRun(1, [], true, rec'), rec.Unread(), arrivals[..1])
  {
    FlattenFirst(arrivals, 1);
    assert Flatten(Ranges([])) == [] && Flatten(arrivals[1..][..0]) == [];
  }

  lemma FlattenFirst(xss: seq<seq<BlockId>>, n: nat)
    requires 0 < n <= |xss|
    ensures Flatten(xss[..n]) == xss[0] + Flatten(xss[1..][..n - 1])
  {
    assert xss[..n] == [xss[0]] + xss[1..][..n - 1];
    FlattenConcat([xss[0]], xss[1..][..n - 1]);
    assert Flatten([xss[0]]) == xss[0];
  }

  lemma RangesFirst(inst: InstId, range: seq<BlockId>, later: seq<(InstId, seq<BlockId>)>)
    ensures Flatten(Ranges([(inst, range)] + later)) == range + Flatten(Ranges(later))
  {
    assert Ranges([(inst, range)] + later) == [range] + Ranges(later);
    FlattenConcat([range], Ranges(later));
    assert Flatten([range]) == range;
  }

  lemma Associates(a: seq<BlockId>, b: seq<BlockId>, c: seq<BlockId>)
    ensures (a + b) + c == a + (b + c)
  {
  }

  // ----- Which blocks are covered, from the arrivals -----

  /** How many polls find nothing, when what is recorded before the k-th is `arrivals[k]`. */
  function EmptyPolls(arrivals: seq<seq<BlockId>>): nat
  {
    if arrivals == [] then 0 else (if arrivals[0] == [] then 1 else 0) + EmptyPolls(arrivals[1..])
  }

  /** The number of empty polls at which the loop gives up. */
  function Patience(waited: nat, waitLimit: int): int
  {
    Max(1, waitLimit - waited)
  }

  lemma EmptyPollsFirst(arrivals: seq<seq<BlockId>>, k: nat)
    requires 0 < k <= |arrivals|
    ensures EmptyPolls(arrivals[..k]) == (if arrivals[0] == [] then 1 else 0) + EmptyPolls(arrivals[1..][..k - 1])
  {
    assert arrivals[..k][0] == arrivals[0] && arrivals[..k][1..] == arrivals[1..][..k - 1];
  }

  /** The k-th poll is made if and only if fewer empty ones than the loop has patience for came before it. */
  lemma {:induction false} PolledExactly(rec: Recorder, arrivals: seq<seq<BlockId>>, waited: nat, inst: InstId,
                                         waitLimit: int, k: nat)
    requires rec.Valid() && rec.Unread() == [] && k < |arrivals|
    ensures k < Loop(rec, arrivals, waited, inst, waitLimit).polls
       <==> EmptyPolls(arrivals[..k]) < Patience(waited, waitLimit)
    decreases |arrivals|
  {
    var all := rec.blockIDs + arrivals[0];
    var rec' := Recorder(all, |all|);
    assert rec.Unread() + arrivals[0] == arrivals[0] && rec'.Unread() == [];
    if k > 0 {
      EmptyPollsFirst(arrivals, k);
      if arrivals[0] != [] {
        PolledExactly(rec', arrivals[1..], waited, inst + 1, waitLimit, k - 1);
      } else if waited + 1 < waitLimit {
        PolledExactly(rec', arrivals[1..], waited + 1, inst, waitLimit, k - 1);
      }
    }
  }

  /** The loop gives up if and only if enough polls find nothing, and then at the poll that makes them enough. */
  lemma {:induction false} GivesUpExactly(rec: Recorder, arrivals: seq<seq<BlockId>>, waited: nat, inst: InstId,
                                          waitLimit: int)
    requires rec.Valid() && rec.Unread() == []
    ensures var run := Loop(rec, arrivals, waited, inst, waitLimit);
            && run.polls <= |arrivals|
            && (run.gaveUp <==> EmptyPolls(arrivals) >= Patience(waited, waitLimit))
            && (run.gaveUp ==> run.polls > 0 && arrivals[run.polls - 1] == []
                               && EmptyPolls(arrivals[..run.polls]) == Patience(waited, waitLimit))
    decreases |arrivals|
  {
    if arrivals != [] {
      var all := rec.blockIDs + arrivals[0];
      var rec' := Recorder(all, |all|);
      assert rec.Unread() + arrivals[0] == arrivals[0] && rec'.Unread() == [];
      var run := Loop(rec, arrivals, waited, inst, waitLimit);
      if arrivals[0] != [] {
        GivesUpExactly(rec', arrivals[1..], waited, inst + 1, waitLimit);
      } else if waited + 1 < waitLimit {
        GivesUpExactly(rec', arrivals[1..], waited + 1, inst, waitLimit);
      }
      EmptyPollsFirst(arrivals, run.polls);
    }
  }

  /** No block comes after as many empty polls as the loop has patience for. */
  ghost predicate NoneComesLate(arrivals: seq<seq<BlockId>>, patience: int)
  {
    forall k :: 0 <= k < |arrivals| && arrivals[k] != [] ==> EmptyPolls(arrivals[..k]) < patience
  }

  /** The instances cover what came before the polls made, and no more. */
  lemma CoversThePolled(rec: Recorder, arrivals: seq<seq<BlockId>>, waited: nat, inst: InstId, waitLimit: int)
    requires rec.Valid() && rec.Unread() == []
    ensures var run := Loop(rec, arrivals, waited, inst, waitLimit);
            run.polls <= |arrivals| && Flatten(Ranges(run.instances)) == Flatten(arrivals[..run.polls])
  {
    var run := Loop(rec, arrivals, waited, inst, waitLimit);
    InstancesCoverBlocks(rec, arrivals, waited, inst, waitLimit);
    assert run.rec.Unread() == [];
    var ranges := Flatten(Ranges(run.instances));
    assert ranges + run.rec.Unread() == ranges;
  }

  /** What comes before polls that are not made is nothing if and only if none comes late. */
  lemma NothingLeftExactly(arrivals: seq<seq<BlockId>>, polls: nat, patience: int)
    requires polls <= |arrivals|
    requires forall k :: 0 <= k < |arrivals| ==> (k < polls <==> EmptyPolls(arrivals[..k]) < patience)
    ensures Flatten(arrivals[polls..]) == [] <==> NoneComesLate(arrivals, patience)
  {
    var rest := arrivals[polls..];
    FlattenEmptyExactly(rest);
    assert forall k :: polls <= k < |arrivals| ==> arrivals[k] == rest[k - polls];
    if NoneComesLate(arrivals, patience) {
      forall i | 0 <= i < |rest| ensures rest[i] == [] {
        assert rest[i] == arrivals[polls + i];
      }
    }
  }

  /** Every block that is ordered is in an instance if and only if none comes late; one that does is in none. */
  lemma CoversAllExactly(rec: Recorder, arrivals: seq<seq<BlockId>>, waited: nat, inst: InstId, waitLimit: int)
    requires rec.Valid() && rec.Unread() == []
    ensures var run := Loop(rec, arrivals, waited, inst, waitLimit);
            && run.polls <= |arrivals|
            && Flatten(Ranges(run.instances)) + Flatten(arrivals[run.polls..]) == Flatten(arrivals)
            && (Flatten(Ranges(run.instances)) == Flatten(arrivals)
                <==> NoneComesLate(arrivals, Patience(waited, waitLimit)))
  {
    var polls := Loop(rec, arrivals, waited, inst, waitLimit).polls;
    CoversThePolled(rec, arrivals, waited, inst, waitLimit);
    FlattenConcat(arrivals[..polls], arrivals[polls..]);
    assert arrivals[..polls] + arrivals[polls..] == arrivals;
    forall k | 0 <= k < |arrivals| ensures k < polls <==> EmptyPolls(arrivals[..k]) < Patience(waited, waitLimit) {
      PolledExactly(rec, arrivals, waited, inst, waitLimit, k);
    }
    NothingLeftExactly(arrivals, polls, Patience(waited, waitLimit));
  }

  lemma {:induction false} FlattenEmptyExactly(xss: seq<seq<BlockId>>)
    ensures Flatten(xss) == [] <==> forall i :: 0 <= i < |xss| ==> xss[i] == []
  {
    if xss != [] {
      FlattenEmptyExactly(xss[..|xss| - 1]);
      assert forall i :: 0 <= i < |xss| - 1 ==> xss[i] == xss[..|xss| - 1][i];
    }
  }

  /** A loop that waits out one empty poll (ConsWaitingSec 1) covers no block ordered after it. */
  lemma LateBlockUncovered(b: BlockId)
    ensures Loop(Recorder([], 0), [[], [b]], 0, 0, 1) == LoopRun(1, [], true, Recorder([], 0))
  {
    var none: seq<BlockId> := [];
    assert [none, [b]][0] == none && none + none == none;
  }
}
