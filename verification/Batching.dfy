/**
 * How transactions are cut into blocks: the shuffle buffer and its time-driven and size-driven
 * modes (vordering.go:41-265), refined to a queue of transactions.
 */
module Batching {
  import opened Types

  // ----- The reference: a queue cut into blocks -----

  /** What one worker did with its request queue: how much it took, what it still buffers, the blocks it cut. */
  datatype Cutter = Cutter(taken: nat, buffer: seq<Entry>, blocks: seq<seq<Entry>>, quit: bool)

  const FRESH := Cutter(0, [], [], false)

  /** What the select of the time-driven mode can choose (vordering.go:176-190). */
  datatype Event = Receive | Tick | Closed

  function Min(a: nat, b: nat): nat { if a < b then a else b }

  /** One turn of the time-driven mode. With a full buffer the input is not looked at (vordering.go:172-174). */
  function PeriodicStep(c: Cutter, input: seq<Entry>, size: nat, ev: Event): Cutter
  {
    if c.quit then c
    else
      match ev
      case Receive =>
        if |c.buffer| < size && c.taken < |input|
        then c.(taken := c.taken + 1, buffer := c.buffer + [input[c.taken]])
        else c
      case Tick =>
        if c.buffer == [] then c
        else
          var n := Min(|c.buffer|, size);
          c.(buffer := c.buffer[n..], blocks := c.blocks + [c.buffer[..n]])
      case Closed => c.(quit := |c.buffer| < size)
  }

  function Periodic(input: seq<Entry>, size: nat, events: seq<Event>): (c: Cutter)
    ensures c.taken <= |input| && |c.buffer| <= size
  {
    if events == [] then FRESH
    else PeriodicStep(Periodic(input, size, events[..|events| - 1]), input, size, events[|events| - 1])
  }

  /** One receive of the size-driven mode: the block is cut as soon as the buffer is full. */
  function BatchStep(c: Cutter, e: Entry, size: nat): Cutter
  {
    var buffer := c.buffer + [e];
    if |buffer| >= size then Cutter(c.taken + 1, [], c.blocks + [buffer], c.quit)
    else Cutter(c.taken + 1, buffer, c.blocks, c.quit)
  }

  function Batch(input: seq<Entry>, size: nat): Cutter
  {
    if input == [] then FRESH else BatchStep(Batch(input[..|input| - 1], size), input[|input| - 1], size)
  }

  /** Blocks in order, then the buffer: exactly the transactions taken, in the order taken. */
  ghost predicate KeepsQueue(c: Cutter, input: seq<Entry>)
  {
    c.taken <= |input| && Flatten(c.blocks) + c.buffer == input[..c.taken]
  }

  lemma CutKeepsQueue(c: Cutter, n: nat, input: seq<Entry>)
    requires n <= |c.buffer| && KeepsQueue(c, input)
    ensures KeepsQueue(c.(buffer := c.buffer[n..], blocks := c.blocks + [c.buffer[..n]]), input)
  {
    var cut := c.buffer[..n];
    FlattenConcat(c.blocks, [cut]);
    assert Flatten([cut]) == cut;
    assert (Flatten(c.blocks) + cut) + c.buffer[n..] == Flatten(c.blocks) + c.buffer;
  }

  lemma TakeKeepsQueue(c: Cutter, input: seq<Entry>)
    requires c.taken < |input| && KeepsQueue(c, input)
    ensures KeepsQueue(c.(taken := c.taken + 1, buffer := c.buffer + [input[c.taken]]), input)
  {
    var e := input[c.taken];
    assert Flatten(c.blocks) + (c.buffer + [e]) == (Flatten(c.blocks) + c.buffer) + [e];
    assert input[..c.taken] + [e] == input[..c.taken + 1];
  }

  lemma {:induction false} PeriodicKeepsQueue(input: seq<Entry>, size: nat, events: seq<Event>)
    requires size >= 1
    ensures var c := Periodic(input, size, events);
            && KeepsQueue(c, input) && |c.buffer| <= size
            && forall i :: 0 <= i < |c.blocks| ==> 1 <= |c.blocks[i]| <= size
  {
    if events == [] {
      assert Flatten(FRESH.blocks) == [];
    } else {
      PeriodicKeepsQueue(input, size, events[..|events| - 1]);
      var c := Periodic(input, size, events[..|events| - 1]);
      match events[|events| - 1] {
        case Receive =>
          if c.taken < |input| {
            TakeKeepsQueue(c, input);
          }
        case Tick => CutKeepsQueue(c, Min(|c.buffer|, size), input);
        case Closed =>
      }
    }
  }

  // ----- What the time-driven mode must do at each event -----

  lemma LastEvent(input: seq<Entry>, size: nat, events: seq<Event>, ev: Event)
    ensures Periodic(input, size, events + [ev]) == PeriodicStep(Periodic(input, size, events), input, size, ev)
  {
    assert (events + [ev])[..|events|] == events;
  }

  /** Unless the worker has quit, a tick makes one block of the whole buffer, or none if that is empty. */
  lemma TickCutsAll(input: seq<Entry>, size: nat, events: seq<Event>)
    requires size >= 1
    ensures var c := Periodic(input, size, events);
            Periodic(input, size, events + [Tick]) ==
            if c.quit then c else Cutter(c.taken, [], c.blocks + (if c.buffer == [] then [] else [c.buffer]), false)
  {
    PeriodicKeepsQueue(input, size, events);
    LastEvent(input, size, events, Tick);
    var buffer := Periodic(input, size, events).buffer;
    assert buffer[..|buffer|] == buffer;
  }

  /** With room in the buffer and something in the queue, a receive takes the next transaction. */
  lemma ReceiveTakesNext(input: seq<Entry>, size: nat, events: seq<Event>)
    requires size >= 1
    ensures var c := Periodic(input, size, events);
            Periodic(input, size, events + [Receive]) ==
            if !c.quit && |c.buffer| != size && c.taken < |input|
            then Cutter(c.taken + 1, c.buffer + [input[c.taken]], c.blocks, false)
            else c
  {
    PeriodicKeepsQueue(input, size, events);
    LastEvent(input, size, events, Receive);
  }

  /** A closed queue ends the worker once the buffer has room, and what is buffered stays there. */
  lemma ClosedQuits(input: seq<Entry>, size: nat, events: seq<Event>)
    requires size >= 1
    ensures var c := Periodic(input, size, events);
            Periodic(input, size, events + [Closed]) ==
            Cutter(c.taken, c.buffer, c.blocks, c.quit || |c.buffer| != size)
  {
    PeriodicKeepsQueue(input, size, events);
    LastEvent(input, size, events, Closed);
  }

  /** How far a schedule gets, counted from its events, the length of the queue and BatchSize alone. */
  datatype Count = Count(taken: nat, waiting: nat, quit: bool)

  function CountEvents(supply: nat, size: nat, events: seq<Event>): Count
  {
    if events == [] then Count(0, 0, false)
    else
      var n := CountEvents(supply, size, events[..|events| - 1]);
      match events[|events| - 1]
      case Receive =>
        if !n.quit && n.waiting != size && n.taken != supply then Count(n.taken + 1, n.waiting + 1, false) else n
      case Tick => if n.quit then n else n.(waiting := 0)
      case Closed => n.(quit := n.quit || n.waiting != size)
  }

  lemma {:induction false} CountsExactly(input: seq<Entry>, size: nat, events: seq<Event>)
    requires size >= 1
    ensures var c := Periodic(input, size, events);
            CountEvents(|input|, size, events) == Count(c.taken, |c.buffer|, c.quit)
  {
    if events != [] {
      var init, ev := events[..|events| - 1], events[|events| - 1];
      CountsExactly(input, size, init);
      assert events == init + [ev];
      match ev {
        case Receive => ReceiveTakesNext(input, size, init);
        case Tick => TickCutsAll(input, size, init);
        case Closed => ClosedQuits(input, size, init);
      }
    }
  }

  /** After any schedule, a tick leaves everything received so far in blocks, in the order received. */
  lemma TickOrdersAll(input: seq<Entry>, size: nat, events: seq<Event>)
    requires size >= 1 && !CountEvents(|input|, size, events).quit
    ensures var n := CountEvents(|input|, size, events);
            n.taken <= |input| && Flatten(Periodic(input, size, events + [Tick]).blocks) == input[..n.taken]
  {
    CountsExactly(input, size, events);
    TickCutsAll(input, size, events);
    PeriodicKeepsQueue(input, size, events + [Tick]);
    var d := Periodic(input, size, events + [Tick]);
    assert Flatten(d.blocks) + [] == Flatten(d.blocks);
  }

  /** The schedule `events` and r receives. */
  function AndReceives(events: seq<Event>, r: nat): seq<Event>
  {
    if r == 0 then events else AndReceives(events, r - 1) + [Receive]
  }

  /** As many transactions as r receives can take into an empty buffer. */
  function PeriodTake(c: Cutter, input: seq<Entry>, size: nat, r: nat): nat
    requires c.taken <= |input|
  {
    Min(r, Min(size, |input| - c.taken))
  }

  /** `d` is `c`, which had an empty buffer, after r receives. */
  ghost predicate Took(c: Cutter, d: Cutter, input: seq<Entry>, size: nat, r: nat)
  {
    && c.taken <= |input|
    && var n := PeriodTake(c, input, size, r);
       d == Cutter(c.taken + n, input[c.taken..c.taken + n], c.blocks, false)
  }

  lemma TookOneMore(c: Cutter, d: Cutter, input: seq<Entry>, size: nat, r: nat)
    requires Took(c, d, input, size, r)
    ensures d.taken <= |input| && |d.buffer| <= size
    ensures Took(c, if |d.buffer| < size && d.taken < |input|
                    then Cutter(d.taken + 1, d.buffer + [input[d.taken]], d.blocks, false) else d, input, size, r + 1)
  {
  }

  lemma TookNone(c: Cutter, input: seq<Entry>, size: nat)
    requires c.taken <= |input| && c.buffer == [] && !c.quit
    ensures Took(c, c, input, size, 0)
  {
  }

  lemma OneMoreReceive(input: seq<Entry>, size: nat, events: seq<Event>, r: nat)
    requires size >= 1 && r >= 1
    requires Took(Periodic(input, size, events), Periodic(input, size, AndReceives(events, r - 1)), input, size, r - 1)
    ensures Took(Periodic(input, size, events), Periodic(input, size, AndReceives(events, r)), input, size, r)
  {
    var before := AndReceives(events, r - 1);
    ReceiveTakesNext(input, size, before);
    TookOneMore(Periodic(input, size, events), Periodic(input, size, before), input, size, r - 1);
  }

  lemma {:induction false} ReceivesTake(input: seq<Entry>, size: nat, events: seq<Event>, r: nat)
    requires size >= 1 && Periodic(input, size, events).buffer == [] && !Periodic(input, size, events).quit
    ensures Took(Periodic(input, size, events), Periodic(input, size, AndReceives(events, r)), input, size, r)
  {
    if r == 0 {
      TookNone(Periodic(input, size, events), input, size);
    } else {
      ReceivesTake(input, size, events, r - 1);
      OneMoreReceive(input, size, events, r);
    }
  }

  /**
   * From one tick to the next, r receives take as many transactions as r, BatchSize and the queue allow; the tick
   * orders them as one block.
   */
  lemma PeriodExactly(input: seq<Entry>, size: nat, events: seq<Event>, r: nat)
    requires size >= 1 && Periodic(input, size, events).buffer == [] && !Periodic(input, size, events).quit
    ensures var c, d := Periodic(input, size, events), Periodic(input, size, AndReceives(events, r) + [Tick]);
            var n := PeriodTake(c, input, size, r);
            && d.taken == c.taken + n && d.buffer == [] && !d.quit
            && d.blocks == c.blocks + if n == 0 then [] else [input[c.taken..c.taken + n]]
  {
    ReceivesTake(input, size, events, r);
    TickCutsAll(input, size, AndReceives(events, r));
  }

  lemma {:induction false} BatchKeepsQueue(input: seq<Entry>, size: nat)
    requires size >= 1
    ensures var c := Batch(input, size);
            && KeepsQueue(c, input) && c.taken == |input| && |c.buffer| < size
            && |c.blocks| * size + |c.buffer| == |input|
            && forall i :: 0 <= i < |c.blocks| ==> |c.blocks[i]| == size
  {
    if input == [] {
      assert Flatten(FRESH.blocks) == [];
    } else {
      var init, e := input[..|input| - 1], input[|input| - 1];
      BatchKeepsQueue(init, size);
      var c := Batch(init, size);
      Grow(c, input);
      TakeKeepsQueue(c, input);
      var d := c.(taken := c.taken + 1, buffer := c.buffer + [e]);
      CutKeepsQueue(d, |d.buffer|, input);
      assert d.buffer[..|d.buffer|] == d.buffer && d.buffer[|d.buffer|..] == [];
      OneMore(|c.blocks|, size);
    }
  }

  lemma Grow(c: Cutter, input: seq<Entry>)
    requires |input| > 0 && KeepsQueue(c, input[..|input| - 1])
    ensures KeepsQueue(c, input)
  {
    assert input[..|input| - 1][..c.taken] == input[..c.taken];
  }

  lemma OneMore(n: nat, size: nat)
    ensures (n + 1) * size == n * size + size
  {
  }

  /** Both modes, fed from the same queue, order prefixes of the same transaction sequence. */
  lemma ModesOrderTheSameQueue(input: seq<Entry>, size: nat, events: seq<Event>)
    requires size >= 1
    ensures var p, b := Flatten(Periodic(input, size, events).blocks), Flatten(Batch(input, size).blocks);
            p <= input && b <= input && (p <= b || b <= p)
  {
    PeriodicKeepsQueue(input, size, events);
    BatchKeepsQueue(input, size);
    PrefixOf(Periodic(input, size, events), input);
    PrefixOf(Batch(input, size), input);
  }

  lemma PrefixOf(c: Cutter, input: seq<Entry>)
    requires KeepsQueue(c, input)
    ensures Flatten(c.blocks) == input[..|Flatten(c.blocks)|]
  {
    var p := Flatten(c.blocks);
    assert p == (p + c.buffer)[..|p|];
  }

  // ----- The shuffle buffer as it is -----

  /** The entries 0, 1, ..., n-1 of a map as a sequence. */
  function Listed(m: Entries, n: nat): (r: seq<Entry>)
    requires forall k :: 0 <= k < n ==> k in m
    ensures |r| == n && forall k :: 0 <= k < n ==> r[k] == m[k]
  {
    seq(n, k requires 0 <= k < n && k in m => m[k])
  }

  ghost predicate Dense(m: Entries, n: nat)
  {
    forall k :: k in m <==> 0 <= k < n
  }

  ghost predicate Represents(m: Entries, list: seq<Entry>)
  {
    Dense(m, |list|) && Listed(m, |list|) == list
  }

  lemma {:induction false} DenseSize(m: Entries, n: nat)
    requires Dense(m, n)
    ensures |m| == n
  {
    if n == 0 {
      assert forall k :: k !in m;
      assert m.Keys == {};
    } else {
      DenseSize(m - {n - 1}, n - 1);
      assert m.Keys == (m - {n - 1}).Keys + {n - 1};
    }
  }

  /** An entry put under the next key continues the list. */
  lemma RepresentsMore(m: Entries, list: seq<Entry>, e: Entry)
    requires Represents(m, list)
    ensures |m| == |list| && Represents(m[|m| := e], list + [e])
  {
    DenseSize(m, |list|);
    var m' := m[|m| := e];
    forall k | 0 <= k < |list| + 1 ensures Listed(m', |list| + 1)[k] == (list + [e])[k] {
      assert k < |list| ==> Listed(m, |list|)[k] == list[k];
    }
  }

  class ShuffleBuf {
    const batchSize: nat
    var counter: nat
    var entries: Entries
    /** The entries of the blocks broadcast so far. */
    var batches: seq<Entries>

    /** The keys of the buffer are always exactly 0, ..., counter-1. */
    ghost predicate Valid()
      reads this
    {
      batchSize >= 1 && Dense(entries, counter)
    }

    ghost function Buffer(): seq<Entry>
      requires Valid()
      reads this
    {
      Listed(entries, counter)
    }

    /** The batches are, one by one, the blocks of `c`, and the buffer is that of `c`. */
    ghost predicate Refines(c: Cutter)
      reads this
    {
      && Valid() && Buffer() == c.buffer && |batches| == |c.blocks|
      && forall i :: 0 <= i < |batches| ==> Represents(batches[i], c.blocks[i])
    }

    constructor (batchSize: nat)
      requires batchSize >= 1
      ensures Refines(FRESH) && this.batchSize == batchSize
    {
      this.batchSize := batchSize;
      counter, entries, batches := 0, map[], [];
    }

    method Put(e: Entry)
      requires Valid()
      modifies this
      ensures Valid() && Buffer() == old(Buffer()) + [e] && batches == old(batches)
    {
      var idx := counter;
      entries := entries[idx := e];
      counter := counter + 1;
    }

    /** The copying and clearing that surrounds the broadcast of a block (vordering.go:54-67, 128-132). */
    method MakeAndBroadcast()
      requires Valid()
      modifies this
      ensures Valid() && (old(counter) == 0 ==> batches == old(batches) && counter == 0)
      ensures old(counter) > 0 ==> counter == 0 && entries == map[]
                                   && batches == old(batches) + [old(entries)]
                                   && Represents(old(entries), old(Buffer()))
    {
      if counter == 0 {
        return;
      }
      var localEntries: Entries := map[];
      var k := 0;
      while k < counter
        invariant 0 <= k <= counter && counter == old(counter) && entries == old(entries) && batches == old(batches)
        invariant Dense(localEntries, k) && forall j :: 0 <= j < k ==> localEntries[j] == entries[j]
      {
        if k in entries {
          localEntries := localEntries[k := entries[k]];
        }
        k := k + 1;
      }
      assert localEntries == entries;
      batches := batches + [localEntries];
      counter, entries := 0, map[];
    }

    /** The first `takeN` entries, and the others renumbered from 0 (vordering.go:206-221). */
    method SplitOff(takeN: nat) returns (batch: Entries, rest: Entries)
      requires Valid() && takeN <= counter
      ensures Represents(batch, Buffer()[..takeN]) && Represents(rest, Buffer()[takeN..]) && |rest| == counter - takeN
    {
      batch, rest := map[], map[];
      ghost var all := Buffer();
      var k := 0;
      while k < counter
        invariant 0 <= k <= counter
        invariant Represents(batch, all[..Min(k, takeN)]) && Represents(rest, all[Min(k, takeN)..k])
      {
        if k in entries {
          if k < takeN {
            RepresentsMore(batch, all[..k], entries[k]);
            assert all[..k + 1] == all[..k] + [entries[k]] && all[k + 1..k + 1] == all[k..k];
            batch := batch[|batch| := entries[k]];
          } else {
            RepresentsMore(rest, all[takeN..k], entries[k]);
            assert all[takeN..k + 1] == all[takeN..k] + [entries[k]];
            rest := rest[|rest| := entries[k]];
          }
        }
        k := k + 1;
      }
      DenseSize(rest, counter - takeN);
      assert all[takeN..k] == all[takeN..];
    }

    /**
     * A tick cuts min(counter, batchSize) entries off the front, whatever the counter; with the
     * back-pressure of RunPeriodic nothing is left over to restore.
     */
    method TickOnce()
      requires Valid()
      modifies this
      ensures Valid()
      ensures var n := Min(old(counter), batchSize);
              if old(counter) == 0 then counter == 0 && batches == old(batches)
              else Buffer() == old(Buffer())[n..] && |batches| == |old(batches)| + 1
                   && batches[..|old(batches)|] == old(batches)
                   && Represents(batches[|old(batches)|], old(Buffer())[..n])
      ensures old(counter) <= batchSize ==> counter == 0 && entries == map[]
    {
      var cnt := counter;
      if cnt == 0 {
        assert forall k :: k !in entries;
        assert entries.Keys == {};
        return;
      }
      var takeN := batchSize;
      if cnt < batchSize {
        takeN := cnt;
      }
      var batch, rest := SplitOff(takeN);
      entries, counter := batch, takeN;
      assert Buffer() == old(Buffer())[..takeN];
      MakeAndBroadcast();
      entries, counter := rest, |rest|;
      assert Buffer() == old(Buffer())[takeN..];
      assert cnt <= batchSize ==> entries == map[];
    }

    /** The time-driven loop (vordering.go:157-237) on a schedule of select choices. */
    method RunPeriodic(input: seq<Entry>, events: seq<Event>) returns (taken: nat, quit: bool)
      requires Refines(FRESH)
      modifies this
      ensures var c := Periodic(input, batchSize, events); Refines(c) && taken == c.taken && quit == c.quit
      ensures counter <= batchSize && CountEvents(|input|, batchSize, events) == Count(taken, counter, quit)
    {
      taken, quit := 0, false;
      var i := 0;
      while i < |events|
        invariant 0 <= i <= |events|
        invariant Refines(Periodic(input, batchSize, events[..i]))
        invariant taken == Periodic(input, batchSize, events[..i]).taken <= |input|
        invariant quit == Periodic(input, batchSize, events[..i]).quit
        invariant counter <= batchSize
      {
        assert events[..i + 1][..i] == events[..i];
        if !quit {
          match events[i] {
            case Receive =>
              if counter < batchSize && taken < |input| {
                Put(input[taken]);
                taken := taken + 1;
              }
            case Tick => TickOnce();
            case Closed => quit := counter < batchSize;
          }
        }
        i := i + 1;
      }
      assert events[..|events|] == events;
      CountsExactly(input, batchSize, events);
    }

    /** The size-driven loop (vordering.go:238-264) until the queue is empty. */
    method RunBatch(input: seq<Entry>)
      requires Refines(FRESH)
      modifies this
      ensures Refines(Batch(input, batchSize))
    {
      for i := 0 to |input|
        invariant Refines(Batch(input[..i], batchSize))
      {
        assert input[..i + 1][..i] == input[..i];
        Put(input[i]);
        var shouldCut := counter >= batchSize;
        if shouldCut {
          MakeAndBroadcast();
        }
      }
      assert input[..|input|] == input;
    }
  }
}
