/**
 * All interleavings of the handlers of one instance's consensus replies. A handler reads the share
 * list in one lock section and writes it back in another, and appends in between without a lock
 * (vconsensus.go:195-239), so lists read by different handlers can share their memory. The model keeps
 * that memory: a list is a length over a backing array, and appending writes in place when the array
 * has room and moves to a new array otherwise.
 */
module ConsensusReplies {
  import opened Types

  /** The first `len` cells of backing array `arr`. */
  datatype Slice = Slice(arr: nat, len: nat)

  datatype Pc =
    | Ready
    | Read(local: Slice)
    | Appended(local: Slice)
    | Written(local: Slice)
    | Recovering(local: Slice)
    | Finished

  /**
   * Handler h's reply stands for its share. `stored` is the list in vgTxMeta.sigs; `position` remembers
   * at which place a handler put its reply.
   */
  datatype State = State(heap: seq<seq<Option<nat>>>, stored: Slice, pcs: seq<Pc>, position: seq<Option<nat>>)

  function Initial(handlers: nat): State
  {
    State([[]], Slice(0, 0), seq(handlers, _ => Ready), seq(handlers, _ => None))
  }

  /** Handler h takes its next step; `room` is the spare capacity of an array it has to allocate. */
  datatype Event = Event(h: nat, room: nat)

  ghost predicate SliceOk(s: State, l: Slice)
  {
    l.arr < |s.heap| && l.len <= |s.heap[l.arr]| && forall i :: 0 <= i < l.len ==> s.heap[l.arr][i].Some?
  }

  function Grown(cells: seq<Option<nat>>, len: nat, h: nat, room: nat): seq<Option<nat>>
    requires len <= |cells|
  {
    cells[..len] + [Some(h)] + seq(room, _ => None)
  }

  /** The unlocked append (vconsensus.go:218): the memory after it and the longer list. */
  function Append(heap: seq<seq<Option<nat>>>, l: Slice, h: nat, room: nat): (seq<seq<Option<nat>>>, Slice)
    requires l.arr < |heap| && l.len <= |heap[l.arr]|
  {
    var cells := heap[l.arr];
    if l.len < |cells| then (heap[l.arr := cells[l.len := Some(h)]], Slice(l.arr, l.len + 1))
    else (heap + [Grown(cells, l.len, h, room)], Slice(|heap|, l.len + 1))
  }

  function Step(s: State, e: Event, threshold: nat): State
  {
    if e.h >= |s.pcs| || |s.position| != |s.pcs| then s
    else
      match s.pcs[e.h]
      case Ready => s.(pcs := s.pcs[e.h := if s.stored.len == threshold then Finished else Read(s.stored)])
      case Read(l) =>
        if l.arr < |s.heap| && l.len <= |s.heap[l.arr]| then
          var (heap', longer) := Append(s.heap, l, e.h, e.room);
          State(heap', s.stored, s.pcs[e.h := Appended(longer)], s.position[e.h := Some(l.len)])
        else s
      case Appended(l) => s.(stored := l, pcs := s.pcs[e.h := Written(l)])
      case Written(l) => s.(pcs := s.pcs[e.h := if l.len == threshold then Recovering(l) else Finished])
      case Recovering(_) => s
      case Finished => s
  }

  function Run(handlers: nat, events: seq<Event>, threshold: nat): State
  {
    if events == [] then Initial(handlers)
    else Step(Run(handlers, events[..|events| - 1], threshold), events[|events| - 1], threshold)
  }

  /** A reply, wherever a copy of it lies, lies at its own position. */
  ghost predicate CellOk(s: State, a: nat, i: nat)
  {
    a < |s.heap| && i < |s.heap[a]| && s.heap[a][i].Some? ==>
      s.heap[a][i].value < |s.position| && s.position[s.heap[a][i].value] == Some(i)
  }

  ghost predicate HandlerOk(s: State, g: nat, threshold: nat)
    requires g < |s.pcs| == |s.position|
  {
    match s.pcs[g]
    case Ready => s.position[g] == None
    case Read(l) => s.position[g] == None && l.len < threshold && SliceOk(s, l)
    case Appended(l) => l.len <= threshold && SliceOk(s, l)
    case Written(l) => l.len <= threshold && SliceOk(s, l)
    case Recovering(l) => l.len == threshold && SliceOk(s, l)
    case Finished => true
  }

  ghost predicate Inv(s: State, threshold: nat)
  {
    && |s.position| == |s.pcs| && SliceOk(s, s.stored) && s.stored.len <= threshold
    && (forall g :: 0 <= g < |s.pcs| ==> HandlerOk(s, g, threshold))
    && (forall a, i :: CellOk(s, a, i))
  }

  lemma StepKeepsInv(s: State, e: Event, threshold: nat)
    requires Inv(s, threshold)
    ensures Inv(Step(s, e, threshold), threshold)
  {
    if e.h < |s.pcs| {
      assert HandlerOk(s, e.h, threshold);
      if s.pcs[e.h].Read? {
        AppendKeepsInv(s, e, threshold);
      } else {
        var s' := Step(s, e, threshold);
        forall g | 0 <= g < |s'.pcs| ensures HandlerOk(s', g, threshold) {
          assert HandlerOk(s, g, threshold);
        }
        forall a, i ensures CellOk(s', a, i) {
          assert CellOk(s, a, i);
        }
      }
    }
  }

  /** An append fills no cell of an intact list with nothing. */
  lemma AppendKeepsSlice(s: State, s': State, l: Slice, h: nat, room: nat, k: Slice)
    requires SliceOk(s, l) && SliceOk(s, k) && s'.heap == Append(s.heap, l, h, room).0
    ensures SliceOk(s', k)
  {
  }

  lemma AppendKeepsInv(s: State, e: Event, threshold: nat)
    requires Inv(s, threshold) && e.h < |s.pcs| && s.pcs[e.h].Read?
    ensures Inv(Step(s, e, threshold), threshold)
  {
    var s' := Step(s, e, threshold);
    var l := s.pcs[e.h].local;
    assert HandlerOk(s, e.h, threshold);
    AppendKeepsSlice(s, s', l, e.h, e.room, s.stored);
    forall g | 0 <= g < |s'.pcs| ensures HandlerOk(s', g, threshold) {
      assert HandlerOk(s, g, threshold);
      if g != e.h && !s.pcs[g].Ready? && !s.pcs[g].Finished? {
        AppendKeepsSlice(s, s', l, e.h, e.room, s.pcs[g].local);
      }
    }
    forall a: nat, i: nat ensures CellOk(s', a, i) {
      AppendKeepsCell(s, e, threshold, a, i);
    }
  }

  lemma AppendKeepsCell(s: State, e: Event, threshold: nat, a: nat, i: nat)
    requires Inv(s, threshold) && e.h < |s.pcs| && s.pcs[e.h].Read?
    ensures CellOk(Step(s, e, threshold), a, i)
  {
    var l := s.pcs[e.h].local;
    assert HandlerOk(s, e.h, threshold);
    assert CellOk(s, a, i) && CellOk(s, l.arr, i);
  }

  lemma {:induction false} Reachable(handlers: nat, events: seq<Event>, threshold: nat)
    ensures Inv(Run(handlers, events, threshold), threshold) && |Run(handlers, events, threshold).pcs| == handlers
  {
    if events != [] {
      var init := events[..|events| - 1];
      Reachable(handlers, init, threshold);
      StepKeepsInv(Run(handlers, init, threshold), events[|events| - 1], threshold);
    }
  }

  /** The replies that a list holds at this moment. */
  ghost function Replies(s: State, l: Slice): (r: seq<nat>)
    requires SliceOk(s, l)
    ensures |r| == l.len
  {
    seq(l.len, i requires 0 <= i < l.len => s.heap[l.arr][i].value)
  }

  ghost predicate DifferentReplies(s: State, l: Slice, handlers: nat)
  {
    && SliceOk(s, l)
    && (forall i :: 0 <= i < l.len ==> Replies(s, l)[i] < handlers)
    && (forall i, j :: 0 <= i < j < l.len ==> Replies(s, l)[i] != Replies(s, l)[j])
  }

  /**
   * In every interleaving, and at every later moment, the stored list holds at most `threshold` replies,
   * each list handed to recovery exactly `threshold`, and no list holds a reply twice.
   */
  lemma ListsHoldDifferentReplies(handlers: nat, events: seq<Event>, threshold: nat)
    ensures var s := Run(handlers, events, threshold);
            && |s.pcs| == handlers && s.stored.len <= threshold && DifferentReplies(s, s.stored, handlers)
            && forall h :: 0 <= h < handlers && s.pcs[h].Recovering? ==>
                 s.pcs[h].local.len == threshold && DifferentReplies(s, s.pcs[h].local, handlers)
  {
    Reachable(handlers, events, threshold);
    var s := Run(handlers, events, threshold);
    SliceDiffers(s, s.stored, threshold);
    forall h | 0 <= h < handlers && s.pcs[h].Recovering?
      ensures s.pcs[h].local.len == threshold && DifferentReplies(s, s.pcs[h].local, handlers)
    {
      assert HandlerOk(s, h, threshold);
      SliceDiffers(s, s.pcs[h].local, threshold);
    }
  }

  lemma SliceDiffers(s: State, l: Slice, threshold: nat)
    requires Inv(s, threshold) && SliceOk(s, l)
    ensures DifferentReplies(s, l, |s.pcs|)
  {
    forall i | 0 <= i < l.len ensures Replies(s, l)[i] < |s.pcs| && s.position[Replies(s, l)[i]] == Some(i) {
      assert CellOk(s, l.arr, i);
    }
  }

  // ----- One handler at a time -----

  /** All steps of handler h in a row. */
  function Alone(s: State, h: nat, room: nat, threshold: nat): State
  {
    var e := Event(h, room);
    Step(Step(Step(Step(s, e, threshold), e, threshold), e, threshold), e, threshold)
  }

  /** Handler after handler, the i-th allocating with the spare capacity rooms[i]. */
  function OneByOne(handlers: nat, rooms: seq<nat>, threshold: nat): State
  {
    if rooms == [] then Initial(handlers)
    else Alone(OneByOne(handlers, rooms[..|rooms| - 1], threshold), |rooms| - 1, rooms[|rooms| - 1], threshold)
  }

  /** A handler that runs alone appends its reply unless the list is full, and recovers if it completes it. */
  lemma AloneAppends(s: State, h: nat, room: nat, threshold: nat)
    requires Inv(s, threshold) && h < |s.pcs| && s.pcs[h] == Ready
    ensures var s' := Alone(s, h, room, threshold);
            && Inv(s', threshold) && |s'.pcs| == |s.pcs|
            && (forall g :: 0 <= g < |s.pcs| && g != h ==> s'.pcs[g] == s.pcs[g])
            && if s.stored.len == threshold then s'.pcs[h] == Finished && s'.stored == s.stored
            && Replies(s', s'.stored) == Replies(s, s.stored)
               else && Replies(s', s'.stored) == Replies(s, s.stored) + [h]
                    && s'.pcs[h] == if s'.stored.len == threshold then Recovering(s'.stored) else Finished
  {
    var e := Event(h, room);
    var s1 := Step(s, e, threshold);
    StepKeepsInv(s, e, threshold);
    if s.stored.len != threshold {
      var s2 := Step(s1, e, threshold);
      StepKeepsInv(s1, e, threshold);
      var longer := Append(s.heap, s.stored, h, room).1;
      assert s2.pcs[h] == Appended(longer);
      AppendAdds(s, s2, s.stored, h, room);
      var s3 := Step(s2, e, threshold);
      StepKeepsInv(s2, e, threshold);
      StepKeepsInv(s3, e, threshold);
    }
  }

  lemma AppendAdds(s: State, s': State, l: Slice, h: nat, room: nat)
    requires SliceOk(s, l) && s'.heap == Append(s.heap, l, h, room).0
    ensures var longer := Append(s.heap, l, h, room).1;
            SliceOk(s', longer) && Replies(s', longer) == Replies(s, l) + [h]
  {
  }

  /**
   * When the handlers run one after the other, the list holds the first `threshold` replies in order,
   * and exactly one handler recovers, the one that completes it, once `threshold` >= 1 replies came.
   */
  lemma {:induction false} OneByOneRecoversOnce(handlers: nat, rooms: seq<nat>, threshold: nat)
    requires |rooms| <= handlers
    ensures var s := OneByOne(handlers, rooms, threshold);
            && Inv(s, threshold) && |s.pcs| == handlers
            && s.stored.len == (if |rooms| < threshold then |rooms| else threshold)
            && (forall i :: 0 <= i < s.stored.len ==> Replies(s, s.stored)[i] == i)
            && (forall h :: 0 <= h < handlers ==>
                  if h >= |rooms| then s.pcs[h] == Ready
                  else if h + 1 == threshold then s.pcs[h].Recovering? else s.pcs[h].Finished?)
  {
    if rooms != [] {
      var n := |rooms| - 1;
      OneByOneRecoversOnce(handlers, rooms[..n], threshold);
      AloneAppends(OneByOne(handlers, rooms[..n], threshold), n, rooms[n], threshold);
    }
  }

  /** Running handlers one after the other is one of the interleavings. */
  lemma {:induction false} OneByOneIsARun(handlers: nat, rooms: seq<nat>, threshold: nat) returns (events: seq<Event>)
    ensures Run(handlers, events, threshold) == OneByOne(handlers, rooms, threshold)
  {
    if rooms == [] {
      events := [];
    } else {
      var n := |rooms| - 1;
      var before := OneByOneIsARun(handlers, rooms[..n], threshold);
      var e := Event(n, rooms[n]);
      events := before + [e] + [e] + [e] + [e];
      RunSnoc(handlers, before, e, threshold);
      RunSnoc(handlers, before + [e], e, threshold);
      RunSnoc(handlers, before + [e] + [e], e, threshold);
      RunSnoc(handlers, before + [e] + [e] + [e], e, threshold);
    }
  }

  lemma RunSnoc(handlers: nat, events: seq<Event>, e: Event, threshold: nat)
    ensures Run(handlers, events + [e], threshold) == Step(Run(handlers, events, threshold), e, threshold)
  {
    assert (events + [e])[..|events + [e]| - 1] == events;
  }

  // ----- Exactly who recovers -----

  /** How long the stored list was when handler h read it: the first event of h is its read section. */
  ghost function LengthRead(handlers: nat, events: seq<Event>, threshold: nat, h: nat): Option<nat>
  {
    if events == [] then None
    else
      var init := events[..|events| - 1];
      var before := LengthRead(handlers, init, threshold, h);
      if before.Some? then before
      else if events[|events| - 1].h == h then Some(Run(handlers, init, threshold).stored.len)
      else None
  }

  /** What a handler has become, by the length `n` that it read. */
  ghost predicate OutcomeOk(pc: Pc, n: Option<nat>, threshold: nat)
  {
    match pc
    case Ready => n == None
    case Read(l) => n == Some(l.len) && l.len != threshold
    case Appended(l) => n.Some? && l.len == n.value + 1
    case Written(l) => n.Some? && l.len == n.value + 1
    case Recovering(l) => n.Some? && n.value + 1 == threshold
    case Finished => n.Some? && n.value + 1 != threshold
  }

  lemma {:induction false} OutcomeByLength(handlers: nat, events: seq<Event>, threshold: nat, h: nat)
    requires h < handlers
    ensures |Run(handlers, events, threshold).pcs| == handlers
    ensures OutcomeOk(Run(handlers, events, threshold).pcs[h], LengthRead(handlers, events, threshold, h), threshold)
  {
    Reachable(handlers, events, threshold);
    if events != [] {
      var init := events[..|events| - 1];
      OutcomeByLength(handlers, init, threshold, h);
      Reachable(handlers, init, threshold);
      assert HandlerOk(Run(handlers, init, threshold), h, threshold);
    }
  }

  predicate Ended(s: State)
  {
    forall h :: 0 <= h < |s.pcs| ==> s.pcs[h].Finished? || s.pcs[h].Recovering?
  }

  /** The handlers that found the list one reply short of the threshold. */
  ghost function Completers(handlers: nat, events: seq<Event>, threshold: nat): set<nat>
  {
    set h | 0 <= h < handlers && LengthRead(handlers, events, threshold, h) == Some(threshold - 1)
  }

  ghost function Recoverers(s: State): set<nat>
  {
    set h | 0 <= h < |s.pcs| && s.pcs[h].Recovering?
  }

  /**
   * In every interleaving a handler that has ended has gone on to recovery if and only if it found the list
   * exactly one reply short. So there are as many recoveries as handlers that read such a list.
   */
  lemma RecoversExactly(handlers: nat, events: seq<Event>, threshold: nat)
    requires Ended(Run(handlers, events, threshold))
    ensures Recoverers(Run(handlers, events, threshold)) == Completers(handlers, events, threshold)
    ensures forall h :: 0 <= h < handlers ==> LengthRead(handlers, events, threshold, h).Some?
  {
    var s := Run(handlers, events, threshold);
    Reachable(handlers, events, threshold);
    forall h | 0 <= h < handlers
      ensures h in Recoverers(s) <==> h in Completers(handlers, events, threshold)
      ensures LengthRead(handlers, events, threshold, h).Some?
    {
      OutcomeByLength(handlers, events, threshold, h);
    }
  }

  /** An instance is recovered exactly once if and only if exactly one handler read a list one reply short. */
  lemma RecoversOnceExactly(handlers: nat, events: seq<Event>, threshold: nat)
    requires Ended(Run(handlers, events, threshold))
    ensures (exists h :: Recoverers(Run(handlers, events, threshold)) == {h})
       <==> (exists h :: Completers(handlers, events, threshold) == {h})
  {
    RecoversExactly(handlers, events, threshold);
  }

  // ----- Runs that recover too often or not at all -----

  /** Handlers e1.h and e2.h take each step in turn. */
  function Overlapped(s: State, e1: Event, e2: Event, steps: nat, threshold: nat): State
  {
    if steps == 0 then s
    else Step(Step(Overlapped(s, e1, e2, steps - 1, threshold), e1, threshold), e2, threshold)
  }

  lemma {:induction false} OverlappedIsARun(handlers: nat, before: seq<Event>, e1: Event, e2: Event, steps: nat,
                                            threshold: nat)
    returns (events: seq<Event>)
    ensures Run(handlers, events, threshold) == Overlapped(Run(handlers, before, threshold), e1, e2, steps, threshold)
  {
    if steps == 0 {
      events := before;
    } else {
      var init := OverlappedIsARun(handlers, before, e1, e2, steps - 1, threshold);
      events := init + [e1] + [e2];
      RunSnoc(handlers, init, e1, threshold);
      RunSnoc(handlers, init + [e1], e2, threshold);
    }
  }

  /**
   * Overlapping handlers can lose an update, so that nobody recovers: with threshold 2 and two replies, both
   * read the empty list, each writes back its own reply alone, and both end.
   */
  lemma NobodyRecovers() returns (events: seq<Event>)
    ensures var s := Run(2, events, 2);
            Ended(s) && |s.pcs| == 2 && s.stored.len == 1 && Recoverers(s) == {}
  {
    var e1, e2 := Event(0, 0), Event(1, 0);
    var before: seq<Event> := [];
    events := OverlappedIsARun(2, before, e1, e2, 4, 2);
    BothLose(Initial(2), e1, e2);
  }

  lemma BothLose(s: State, e1: Event, e2: Event)
    requires s == Initial(2) && e1 == Event(0, 0) && e2 == Event(1, 0)
    ensures var s' := Overlapped(s, e1, e2, 4, 2);
            s'.pcs == [Finished, Finished] && s'.stored.len == 1
  {
    assert s.pcs == [Ready, Ready];
    var l := Slice(0, 0);
    var s2 := Overlapped(s, e1, e2, 1, 2);
    assert s2 == Step(Step(Overlapped(s, e1, e2, 0, 2), e1, 2), e2, 2) && s2.pcs == [Read(l), Read(l)];
    var s4 := Overlapped(s, e1, e2, 2, 2);
    assert s4.pcs == [Appended(Slice(1, 1)), Appended(Slice(2, 1))];
    var s6 := Overlapped(s, e1, e2, 3, 2);
    assert s6.pcs == [Written(Slice(1, 1)), Written(Slice(2, 1))] && s6.stored == Slice(2, 1);
    var s8 := Overlapped(s, e1, e2, 4, 2);
    assert s8.pcs == [Finished, Finished];
  }

  /**
   * Overlapping handlers can also recover twice: with threshold 2, handlers 1 and 2 both read the list of
   * handler 0, append and recover. That needs no spare capacity. With some, they append in the same place,
   * and the list that handler 1 recovers from lacks its own reply.
   */
  lemma OverlapRecoversTwice(room: nat) returns (events: seq<Event>)
    ensures var s := Run(3, events, 2);
            Ended(s) && Recoverers(s) == {1, 2} && RecoverFrom(s, [0, if room == 0 then 1 else 2], [0, 2])
  {
    var before := OneByOneIsARun(3, [room], 2);
    events := OverlappedIsARun(3, before, Event(1, 0), Event(2, 0), 4, 2);
    var s := OneByOne(3, [room], 2);
    FirstAlone(s, room);
    BothRecover(s, Event(1, 0), Event(2, 0), room);
  }

  /** Handlers 1 and 2 recover from lists of these replies. */
  ghost predicate RecoverFrom(s: State, first: seq<nat>, second: seq<nat>)
  {
    && |s.pcs| == 3 && s.pcs[1].Recovering? && s.pcs[2].Recovering?
    && SliceOk(s, s.pcs[1].local) && SliceOk(s, s.pcs[2].local)
    && Replies(s, s.pcs[1].local) == first && Replies(s, s.pcs[2].local) == second
  }

  lemma BothRecover(s: State, e1: Event, e2: Event, room: nat)
    requires e1 == Event(1, 0) && e2 == Event(2, 0)
    requires s.heap == [[], [Some(0)] + seq(room, _ => None)] && s.stored == Slice(1, 1)
             && s.pcs == [Finished, Ready, Ready]
    requires |s.position| == 3
    ensures var s' := Overlapped(s, e1, e2, 4, 2);
            Ended(s') && Recoverers(s') == {1, 2} && RecoverFrom(s', [0, if room == 0 then 1 else 2], [0, 2])
  {
    var l := Slice(1, 1);
    var m1 := if room == 0 then Slice(2, 2) else Slice(1, 2);
    var m2 := if room == 0 then Slice(3, 2) else Slice(1, 2);
    var s2 := Overlapped(s, e1, e2, 1, 2);
    assert Overlapped(s, e1, e2, 0, 2) == s;
    BothRead(s, s2, e1, e2, l);
    var s4 := Overlapped(s, e1, e2, 2, 2);
    BothAppend(s2, s4, e1, e2, room, l, m1, m2);
    var s6 := Overlapped(s, e1, e2, 3, 2);
    var s8 := Overlapped(s, e1, e2, 4, 2);
    BothEnd(s4, s6, s8, e1, e2, m1, m2);
    assert SliceOk(s8, m1) && Replies(s8, m1) == Replies(s4, m1) && SliceOk(s8, m2)
           && Replies(s8, m2) == Replies(s4, m2);
  }

  lemma BothRead(s: State, s': State, e1: Event, e2: Event, l: Slice)
    requires e1 == Event(1, 0) && e2 == Event(2, 0) && s' == Step(Step(s, e1, 2), e2, 2)
    requires s.stored == l && l.len != 2 && s.pcs == [Finished, Ready, Ready] && |s.position| == 3
    ensures s' == s.(pcs := [Finished, Read(l), Read(l)])
  {
    var s1 := Step(s, e1, 2);
    assert s1.pcs == [Finished, Read(l), Ready];
    assert s'.pcs == [Finished, Read(l), Read(l)];
  }

  lemma BothEnd(s: State, s1: State, s2: State, e1: Event, e2: Event, m1: Slice, m2: Slice)
    requires e1 == Event(1, 0) && e2 == Event(2, 0)
    requires s1 == Step(Step(s, e1, 2), e2, 2) && s2 == Step(Step(s1, e1, 2), e2, 2)
    requires s.pcs == [Finished, Appended(m1), Appended(m2)] && |s.position| == 3 && m1.len == 2 && m2.len == 2
    ensures s2 == s.(pcs := [Finished, Recovering(m1), Recovering(m2)], stored := m2)
  {
    assert s1.pcs == [Finished, Written(m1), Written(m2)] && s1.stored == m2;
    assert s2.pcs == [Finished, Recovering(m1), Recovering(m2)];
  }

  /** Handler 2 appends after handler 1, each to the list of handler 0. */
  lemma BothAppend(s: State, s': State, e1: Event, e2: Event, room: nat, l: Slice, m1: Slice, m2: Slice)
    requires e1 == Event(1, 0) && e2 == Event(2, 0) && s' == Step(Step(s, e1, 2), e2, 2)
    requires |s.position| == 3 && l == Slice(1, 1) && s.pcs == [Finished, Read(l), Read(l)]
    requires s.heap == [[], [Some(0)] + seq(room, _ => None)]
    requires m1 == (if room == 0 then Slice(2, 2) else Slice(1, 2))
             && m2 == (if room == 0 then Slice(3, 2) else Slice(1, 2))
    ensures s'.pcs == [Finished, Appended(m1), Appended(m2)] && |s'.position| == 3
    ensures SliceOk(s', m1) && SliceOk(s', m2)
    ensures Replies(s', m1) == [0, if room == 0 then 1 else 2] && Replies(s', m2) == [0, 2]
  {
    var cells := s.heap[1];
    if room == 0 {
      assert Grown(cells, 1, 1, 0) == [Some(0), Some(1)] && Grown(cells, 1, 2, 0) == [Some(0), Some(2)];
      assert s'.heap == s.heap + [Grown(cells, 1, 1, 0)] + [Grown(cells, 1, 2, 0)];
    } else {
      assert s'.heap == s.heap[1 := cells[1 := Some(1)][1 := Some(2)]];
    }
  }

  lemma FirstAlone(s: State, room: nat)
    requires s == OneByOne(3, [room], 2)
    ensures s.heap == [[], [Some(0)] + seq(room, _ => None)] && s.stored == Slice(1, 1)
            && s.pcs == [Finished, Ready, Ready]
    ensures |s.position| == 3
  {
    assert [room][..0] == [];
    var s0 := Initial(3);
    assert s0.pcs == [Ready, Ready, Ready];
    assert s == Alone(s0, 0, room, 2);
    var e := Event(0, room);
    var s1 := Step(s0, e, 2);
    var cells: seq<Option<nat>> := [];
    assert Grown(cells, 0, 0, room) == [Some(0)] + seq(room, _ => None);
    assert s1.heap == [cells] && s1.pcs[0] == Read(Slice(0, 0));
    var s2 := Step(s1, e, 2);
    assert s2.heap == [cells] + [Grown(cells, 0, 0, room)];
    assert s2.pcs == [Appended(Slice(1, 1)), Ready, Ready];
  }
}
