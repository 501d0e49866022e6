/**
 * What a consensus instance is made of: the collection over the ordered blocks in its range on the
 * proposer (vconsensus.go:45-149) and the scan of them on a validator (comply.go:209-249).
 */
module Instances {
  import opened Types
  import opened BoothRegistry

  /** An ordering certificate sent round, with the block's entries only when resent (msgformat.go:37-45). */
  datatype OpbEntry = OpbEntry(booth: Booth, id: BlockId, combSig: Option<Cert>, entries: Entries, hash: Digest)

  datatype CpaEntry = CpaEntry(prev: seq<OpbEntry>, booth: Booth, bids: seq<BlockId>, inst: InstId,
                               rangeHash: map<BlockId, Digest>, totalHash: Digest)

  type Cache = map<BlockId, Snapshot>

  // ----- Entry lists: a map is enumerated in no particular order -----

  ghost function EntryBag(m: Entries): multiset<Entry>
    decreases |m|
  {
    if exists k :: k in m then
      var k :| k in m;
      EntryBag(m - {k}) + multiset{m[k]}
    else multiset{}
  }

  lemma BagUnfold(m: Entries) returns (j: int)
    requires exists k :: k in m
    ensures j in m && EntryBag(m) == EntryBag(m - {j}) + multiset{m[j]}
  {
    j :| j in m && EntryBag(m) == EntryBag(m - {j}) + multiset{m[j]};
  }

  /** Whichever entry is taken out first, the bag is the same. */
  lemma {:induction false} BagRemove(m: Entries, k: int)
    requires k in m
    ensures EntryBag(m) == EntryBag(m - {k}) + multiset{m[k]}
    decreases |m|
  {
    var j := BagUnfold(m);
    if j != k {
      var without := m - {j, k};
      BagRemove(m - {j}, k);
      assert m - {j} - {k} == without;
      BagRemove(m - {k}, j);
      assert m - {k} - {j} == without;
    }
  }

  /** The keys of a block under which it has entry e. */
  function KeysOf(m: Entries, e: Entry): set<int>
  {
    set k | k in m && m[k] == e
  }

  /** The bag has each entry as many times as the block has it, and nothing besides. */
  lemma {:induction false} BagMultiplicity(m: Entries)
    ensures |EntryBag(m)| == |m| && forall e :: EntryBag(m)[e] == |KeysOf(m, e)|
    decreases |m|
  {
    if k :| k in m {
      BagRemove(m, k);
      BagMultiplicity(m - {k});
      assert m.Keys == (m - {k}).Keys + {k};
      forall e ensures EntryBag(m)[e] == |KeysOf(m, e)| {
        assert KeysOf(m - {k}, e) == KeysOf(m, e) - {k};
      }
    } else {
      assert forall k :: k !in m;
      assert m.Keys == {};
      forall e ensures KeysOf(m, e) == {} {
      }
    }
  }

  /** The entries of a block in the order the map iteration happens to take (vconsensus.go:80-82). */
  method ListEntries(m: Entries) returns (list: seq<Entry>)
    ensures multiset(list) == EntryBag(m)
    ensures |list| == |m| && forall e :: multiset(list)[e] == |KeysOf(m, e)|
  {
    list := [];
    var rest := m;
    while exists k :: k in rest
      invariant multiset(list) + EntryBag(rest) == EntryBag(m)
      decreases |rest|
    {
      var k :| k in rest;
      BagRemove(rest, k);
      list := list + [rest[k]];
      rest := rest - {k};
    }
    BagMultiplicity(m);
    assert |multiset(list)| == |list|;
  }

  // ----- The transactions of an instance, by booth name -----

  /** For each ordering-booth name, the blocks ordered there as bags of entries, in range order. */
  type TxStore = map<string, seq<multiset<Entry>>>

  function AddTx(tx: TxStore, name: string, bag: multiset<Entry>): TxStore
  {
    tx[name := (if name in tx then tx[name] else []) + [bag]]
  }

  function Bags(lists: seq<seq<Entry>>): seq<multiset<Entry>>
  {
    seq(|lists|, i requires 0 <= i < |lists| => multiset(lists[i]))
  }

  /** The stored entry lists, their order within a block forgotten. */
  function StoreView(store: map<string, seq<seq<Entry>>>): TxStore
  {
    map name | name in store :: Bags(store[name])
  }

  function StoreViews(stores: map<InstId, map<string, seq<seq<Entry>>>>): map<InstId, TxStore>
  {
    map i | i in stores :: StoreView(stores[i])
  }

  lemma StoreViewsUpdate(stores: map<InstId, map<string, seq<seq<Entry>>>>, i: InstId,
                         store: map<string, seq<seq<Entry>>>)
    ensures StoreViews(stores[i := store]) == StoreViews(stores)[i := StoreView(store)]
  {
  }

  method StoreBlock(store: map<string, seq<seq<Entry>>>, name: string, list: seq<Entry>)
    returns (r: map<string, seq<seq<Entry>>>)
    ensures StoreView(r) == AddTx(StoreView(store), name, multiset(list))
  {
    if name in store {
      r := store[name := store[name] + [list]];
      assert Bags(store[name] + [list]) == Bags(store[name]) + [multiset(list)];
    } else {
      r := store[name := [list]];
      assert Bags([list]) == [] + [multiset(list)];
    }
    assert StoreView(r) == AddTx(StoreView(store), name, multiset(list));
  }

  /** What an instance over `bids` stores for the blocks that are cached, each block once. */
  ghost function TxOf(cmt: Cache, bids: seq<BlockId>): TxStore
  {
    if bids == [] then map[]
    else
      var tx, b := TxOf(cmt, bids[..|bids| - 1]), bids[|bids| - 1];
      if b in cmt then AddTx(tx, Key(cmt[b].booth.indices), EntryBag(cmt[b].entries)) else tx
  }

  // ----- The proposer's collection -----

  datatype Collected = Collected(range: map<BlockId, Digest>, newMembers: seq<ServerId>, resent: seq<OpbEntry>,
                                 tx: TxStore, stored: bool, ok: bool)

  const NOTHING_COLLECTED := Collected(map[], [], [], map[], false, true)

  /** The members of the commit booth that are not in the ordering booth join the new members once. */
  function AddMissing(newMembers: seq<ServerId>, commit: seq<ServerId>, ordering: seq<ServerId>): seq<ServerId>
  {
    if commit == [] then newMembers
    else
      var before := AddMissing(newMembers, commit[..|commit| - 1], ordering);
      var m := commit[|commit| - 1];
      if m !in ordering && m !in before then before + [m] else before
  }

  predicate SomeMissing(commit: seq<ServerId>, ordering: seq<ServerId>)
  {
    exists m :: m in commit && m !in ordering
  }

  function Resent(b: BlockId, s: Snapshot): OpbEntry
  {
    OpbEntry(s.booth, b, s.tSig, s.entries, s.hash)
  }

  /** One block: skipped if it is not cached; a booth without a name ends the collection. */
  ghost function CollectBlock(c: Collected, cmt: Cache, commit: seq<ServerId>, b: BlockId): Collected
  {
    if !c.ok || b !in cmt then c
    else
      var s := cmt[b];
      var c1 := c.(range := c.range[b := s.hash],
                   newMembers := AddMissing(c.newMembers, commit, s.booth.indices),
                   resent := if SomeMissing(commit, s.booth.indices) then c.resent + [Resent(b, s)] else c.resent);
      match BoothName(s.booth)
      case None => c1.(ok := false)
      case Some(name) => c1.(tx := AddTx(c.tx, name, EntryBag(s.entries)), stored := true)
  }

  ghost function Collect(cmt: Cache, commit: seq<ServerId>, bids: seq<BlockId>): Collected
  {
    if bids == [] then NOTHING_COLLECTED
    else CollectBlock(Collect(cmt, commit, bids[..|bids| - 1]), cmt, commit, bids[|bids| - 1])
  }

  /** All blocks of the range are cached, with booths that have a name. */
  ghost predicate Complete(cmt: Cache, bids: seq<BlockId>)
  {
    forall b :: b in bids ==> b in cmt && cmt[b].booth.indices != []
  }

  lemma {:induction false} MissingExactly(newMembers: seq<ServerId>, commit: seq<ServerId>, ordering: seq<ServerId>)
    requires Distinct(newMembers)
    ensures Distinct(AddMissing(newMembers, commit, ordering))
    ensures forall v ::
              v in AddMissing(newMembers, commit, ordering) <==> v in newMembers || (v in commit && v !in ordering)
  {
    if commit != [] {
      MissingExactly(newMembers, commit[..|commit| - 1], ordering);
      assert forall v :: v in commit <==> v in commit[..|commit| - 1] || v == commit[|commit| - 1];
    }
  }

  lemma {:induction false} CollectsAll(cmt: Cache, commit: seq<ServerId>, bids: seq<BlockId>)
    requires Complete(cmt, bids)
    ensures var c := Collect(cmt, commit, bids);
            && c.ok && (c.stored <==> bids != [])
            && c.range == (map b | b in bids :: cmt[b].hash) && c.tx == TxOf(cmt, bids)
  {
    if bids != [] {
      var init, b := bids[..|bids| - 1], bids[|bids| - 1];
      CollectsAll(cmt, commit, init);
      assert forall x :: x in bids <==> x in init || x == b;
    }
  }

  lemma {:induction false} CollectsMembers(cmt: Cache, commit: seq<ServerId>, bids: seq<BlockId>)
    requires Complete(cmt, bids)
    ensures var c := Collect(cmt, commit, bids);
            && Distinct(c.newMembers)
            && forall v :: v in c.newMembers <==> v in commit && exists b :: b in bids && v !in cmt[b].booth.indices
  {
    if bids != [] {
      var init, b := bids[..|bids| - 1], bids[|bids| - 1];
      CollectsAll(cmt, commit, init);
      CollectsMembers(cmt, commit, init);
      MissingExactly(Collect(cmt, commit, init).newMembers, commit, cmt[b].booth.indices);
      assert forall x :: x in bids <==> x in init || x == b;
    }
  }

  lemma {:induction false} CollectsResent(cmt: Cache, commit: seq<ServerId>, bids: seq<BlockId>)
    requires Complete(cmt, bids)
    ensures forall e :: e in Collect(cmt, commit, bids).resent <==>
                        e.id in bids && e == Resent(e.id, cmt[e.id]) && SomeMissing(commit, e.booth.indices)
  {
    if bids != [] {
      var init, b := bids[..|bids| - 1], bids[|bids| - 1];
      CollectsAll(cmt, commit, init);
      CollectsResent(cmt, commit, init);
      assert forall x :: x in bids <==> x in init || x == b;
    }
  }

  /**
   * Over a complete range: nothing stops the collection, the announced hashes are the cached ones, the new
   * members are listed once each and are those missing from some block's booth, and a block is resent,
   * as it is cached, exactly when some member of the commit booth is missing from its booth.
   */
  lemma CollectExactly(cmt: Cache, commit: seq<ServerId>, bids: seq<BlockId>)
    requires Complete(cmt, bids)
    ensures var c := Collect(cmt, commit, bids);
            && c.ok && (c.stored <==> bids != [])
            && c.range == (map b | b in bids :: cmt[b].hash) && c.tx == TxOf(cmt, bids)
            && Distinct(c.newMembers)
            && (forall v :: v in c.newMembers <==> v in commit && exists b :: b in bids && v !in cmt[b].booth.indices)
            && (forall e ::
                  e in c.resent <==>
                  e.id in bids && e == Resent(e.id, cmt[e.id]) && SomeMissing(commit, e.booth.indices))
  {
    CollectsAll(cmt, commit, bids);
    CollectsMembers(cmt, commit, bids);
    CollectsResent(cmt, commit, bids);
  }

  /** Blocks that are not cached leave no trace in what is collected. */
  lemma {:induction false} CollectSkips(cmt: Cache, commit: seq<ServerId>, bids: seq<BlockId>)
    ensures Collect(cmt, commit, bids) == Collect(cmt, commit, Held(cmt, bids))
  {
    if bids != [] {
      var init, b := bids[..|bids| - 1], bids[|bids| - 1];
      CollectSkips(cmt, commit, init);
      var held := Held(cmt, bids);
      if b in cmt {
        assert held[..|held| - 1] == Held(cmt, init) && held[|held| - 1] == b;
      } else {
        assert held == Held(cmt, init);
      }
    }
  }

  /** Nothing but a cached block in a booth without members stops a collection. */
  lemma {:induction false} CollectsUnlessNameless(cmt: Cache, commit: seq<ServerId>, bids: seq<BlockId>)
    ensures Collect(cmt, commit, bids).ok <==> forall b :: b in bids && b in cmt ==> cmt[b].booth.indices != []
  {
    if bids != [] {
      var init, b := bids[..|bids| - 1], bids[|bids| - 1];
      CollectsUnlessNameless(cmt, commit, init);
      assert forall x :: x in bids <==> x in init || x == b;
    }
  }

  /** The hashes of the cached blocks of a range. */
  ghost function HashesOf(cache: Cache, bids: seq<BlockId>): map<BlockId, Digest>
  {
    map b | b in bids && b in cache :: cache[b].hash
  }

  /** The announced hashes of a collection that goes through are those of the cached blocks. */
  lemma {:induction false} CollectsHashes(cmt: Cache, commit: seq<ServerId>, bids: seq<BlockId>)
    requires Collect(cmt, commit, bids).ok
    ensures Collect(cmt, commit, bids).range == HashesOf(cmt, bids)
  {
    if bids != [] {
      var init, b := bids[..|bids| - 1], bids[|bids| - 1];
      CollectsHashes(cmt, commit, init);
      assert forall x :: x in bids <==> x in init || x == b;
    }
  }

  /** A collection that goes through stores the cached blocks; a stopped one those before the nameless booth. */
  lemma {:induction false} CollectStores(cmt: Cache, commit: seq<ServerId>, bids: seq<BlockId>) returns (n: nat)
    ensures n <= |bids| && (n == |bids| <==> Collect(cmt, commit, bids).ok)
    ensures n < |bids| ==> bids[n] in cmt && cmt[bids[n]].booth.indices == []
    ensures Collect(cmt, commit, bids).tx == TxOf(cmt, bids[..n])
    ensures Collect(cmt, commit, bids).stored <==> exists b :: b in bids[..n] && b in cmt
  {
    n := |bids|;
    if bids != [] {
      var init, b := bids[..n - 1], bids[n - 1];
      var m := CollectStores(cmt, commit, init);
      assert init[..m] == bids[..m] && bids[..n] == bids;
      assert forall x :: x in bids <==> x in init || x == b;
      if !Collect(cmt, commit, bids).ok {
        n := m;
      }
    } else {
      assert bids[..n] == bids;
    }
  }

  // ----- A collection that other handlers overlap -----

  /**
   * The loop takes the lock anew for each block (vconsensus.go:66-68): `seen[i]` is the cache as it is for the
   * i-th.
   */
  ghost function CollectAcross(seen: seq<Cache>, commit: seq<ServerId>, bids: seq<BlockId>): Collected
    requires |seen| == |bids|
  {
    if bids == [] then NOTHING_COLLECTED
    else
      var n := |bids| - 1;
      CollectBlock(CollectAcross(seen[..n], commit, bids[..n]), seen[n], commit, bids[n])
  }

  /** Each block of the range as the loop saw it. */
  ghost function AsSeen(seen: seq<Cache>, bids: seq<BlockId>): Cache
    requires |seen| == |bids|
  {
    if bids == [] then map[]
    else
      var n := |bids| - 1;
      var before := AsSeen(seen[..n], bids[..n]);
      if bids[n] in seen[n] then before[bids[n] := seen[n][bids[n]]] else before
  }

  lemma {:induction false} CollectSame(a: Cache, b: Cache, commit: seq<ServerId>, bids: seq<BlockId>)
    requires forall x :: x in bids ==> (x in a <==> x in b) && (x in a ==> a[x] == b[x])
    ensures Collect(a, commit, bids) == Collect(b, commit, bids)
  {
    if bids != [] {
      CollectSame(a, b, commit, bids[..|bids| - 1]);
      assert bids[|bids| - 1] in bids;
    }
  }

  lemma {:induction false} SeenOnly(seen: seq<Cache>, bids: seq<BlockId>)
    requires |seen| == |bids|
    ensures forall x :: x in AsSeen(seen, bids) ==> x in bids
  {
    if bids != [] {
      SeenOnly(seen[..|bids| - 1], bids[..|bids| - 1]);
    }
  }

  /**
   * Whatever happens to the cache between its turns, the loop over blocks listed once collects what it would
   * in one go from a cache with each block as it was at its own turn.
   */
  lemma {:induction false} CollectAtOnce(seen: seq<Cache>, commit: seq<ServerId>, bids: seq<BlockId>)
    requires |seen| == |bids| && Distinct(bids)
    ensures CollectAcross(seen, commit, bids) == Collect(AsSeen(seen, bids), commit, bids)
  {
    if bids != [] {
      var n := |bids| - 1;
      var init, b := bids[..n], bids[n];
      CollectAtOnce(seen[..n], commit, init);
      SeenOnly(seen[..n], init);
      assert b !in init;
      CollectSame(AsSeen(seen[..n], init), AsSeen(seen, bids), commit, init);
    }
  }

  /** The blocks of the range that were ordered in a booth of the given name, in range order. */
  ghost function Named(cmt: Cache, bids: seq<BlockId>, name: string): seq<multiset<Entry>>
  {
    if bids == [] then []
    else
      var b := bids[|bids| - 1];
      Named(cmt, bids[..|bids| - 1], name)
      + if b in cmt && BoothName(cmt[b].booth) == Some(name) then [EntryBag(cmt[b].entries)] else []
  }

  /** The positions in the range of the blocks ordered under a name. */
  ghost function NamedAt(cmt: Cache, bids: seq<BlockId>, name: string): set<nat>
  {
    set i: nat | i < |bids| && bids[i] in cmt && BoothName(cmt[bids[i]].booth) == Some(name)
  }

  /** They are exactly the blocks with that name, in ascending order of their positions. */
  lemma {:induction false} NamedInOrder(cmt: Cache, bids: seq<BlockId>, name: string) returns (idx: seq<nat>)
    ensures ListsInOrder(idx, NamedAt(cmt, bids, name)) && |idx| == |Named(cmt, bids, name)|
    ensures forall i :: 0 <= i < |idx| ==>
              idx[i] < |bids| && bids[idx[i]] in cmt
              && Named(cmt, bids, name)[i] == EntryBag(cmt[bids[idx[i]]].entries)
  {
    idx := [];
    if bids != [] {
      var n := |bids| - 1;
      var init := NamedInOrder(cmt, bids[..n], name);
      assert forall k: nat :: k in NamedAt(cmt, bids[..n], name) <==> k < n && k in NamedAt(cmt, bids, name);
      assert forall i :: 0 <= i < |init| ==> init[i] in NamedAt(cmt, bids[..n], name);
      idx := init + if n in NamedAt(cmt, bids, name) then [n] else [];
    }
  }

  /** Under each booth name an instance stores exactly the blocks ordered under that name, each once. */
  lemma {:induction false} StoredByName(cmt: Cache, bids: seq<BlockId>, name: string)
    requires Complete(cmt, bids)
    ensures var tx := TxOf(cmt, bids);
            (if name in tx then tx[name] else []) == Named(cmt, bids, name)
            && (name in tx <==> Named(cmt, bids, name) != [])
  {
    if bids != [] {
      StoredByName(cmt, bids[..|bids| - 1], name);
    }
  }

  // ----- The validator's scan -----

  datatype Scanned = Scanned(tx: TxStore, stored: bool, ok: bool)

  /** One block: skipped if not cached; another hash than announced, or a nameless booth, ends the scan. */
  ghost function ScanBlock(s: Scanned, cmt: Cache, range: map<BlockId, Digest>, b: BlockId): Scanned
  {
    if !s.ok || b !in cmt then s
    else if b !in range || range[b] != cmt[b].hash then s.(ok := false)
    else
      match BoothName(cmt[b].booth)
      case None => s.(ok := false)
      case Some(name) => Scanned(AddTx(s.tx, name, EntryBag(cmt[b].entries)), true, true)
  }

  ghost function Scan(cmt: Cache, range: map<BlockId, Digest>, bids: seq<BlockId>): Scanned
  {
    if bids == [] then Scanned(map[], false, true)
    else ScanBlock(Scan(cmt, range, bids[..|bids| - 1]), cmt, range, bids[|bids| - 1])
  }

  /** The validator's cache and the proposer's agree on the blocks of the range that the validator holds. */
  ghost predicate AgreeOn(mine: Cache, theirs: Cache, bids: seq<BlockId>)
  {
    forall b :: b in bids && b in mine ==>
      b in theirs && mine[b].hash == theirs[b].hash && mine[b].entries == theirs[b].entries
      && mine[b].booth == theirs[b].booth
  }

  ghost function Held(mine: Cache, bids: seq<BlockId>): seq<BlockId>
  {
    if bids == [] then []
    else Held(mine, bids[..|bids| - 1]) + if bids[|bids| - 1] in mine then [bids[|bids| - 1]] else []
  }

  /** A validator that agrees with the proposer signs, and stores what the proposer does for the blocks it holds. */
  lemma {:induction false} ScanMatches(mine: Cache, theirs: Cache, range: map<BlockId, Digest>, bids: seq<BlockId>)
    requires Complete(theirs, bids) && AgreeOn(mine, theirs, bids)
    requires forall b :: b in bids ==> b in range && range[b] == theirs[b].hash
    ensures Scan(mine, range, bids).ok && Scan(mine, range, bids).tx == TxOf(theirs, Held(mine, bids))
  {
    if bids != [] {
      var init, b := bids[..|bids| - 1], bids[|bids| - 1];
      ScanMatches(mine, theirs, range, init);
      assert b in bids;
      if b in mine {
        var held := Held(mine, bids);
        assert held == Held(mine, init) + [b] && held[..|held| - 1] == Held(mine, init);
      } else {
        assert Held(mine, bids) == Held(mine, init);
      }
    }
  }

  /** What an instance stores depends on the entries and booths of its blocks only. */
  lemma {:induction false} TxOfStable(cmt: Cache, cmt': Cache, bids: seq<BlockId>)
    requires AgreeOn(cmt, cmt', bids) && forall b :: b in bids ==> b in cmt
    ensures TxOf(cmt, bids) == TxOf(cmt', bids)
  {
    if bids != [] {
      assert bids[|bids| - 1] in bids;
      TxOfStable(cmt, cmt', bids[..|bids| - 1]);
    }
  }

  lemma {:induction false} AllHeld(mine: Cache, bids: seq<BlockId>)
    requires forall b :: b in bids ==> b in mine
    ensures Held(mine, bids) == bids
  {
    if bids != [] {
      AllHeld(mine, bids[..|bids| - 1]);
    }
  }

  /** A scan that goes through is that of the blocks held alone, and stores something if there is one. */
  lemma {:induction false} ScanStores(cmt: Cache, range: map<BlockId, Digest>, bids: seq<BlockId>)
    requires Scan(cmt, range, bids).ok
    ensures Scan(cmt, range, bids).tx == TxOf(cmt, bids)
    ensures Scan(cmt, range, bids).stored <==> exists b :: b in bids && b in cmt
  {
    if bids != [] {
      var init, b := bids[..|bids| - 1], bids[|bids| - 1];
      ScanStores(cmt, range, init);
      assert forall x :: x in bids <==> x in init || x == b;
    }
  }

  /** A scan that does not go through keeps what it stored before the block that ended it. */
  lemma {:induction false} ScanKeepsPrefix(cmt: Cache, range: map<BlockId, Digest>, bids: seq<BlockId>)
    returns (n: nat)
    requires !Scan(cmt, range, bids).ok
    ensures n < |bids| && bids[n] in cmt && Scan(cmt, range, bids[..n]).ok
    ensures Scan(cmt, range, bids) == Scanned(TxOf(cmt, bids[..n]), exists b :: b in bids[..n] && b in cmt, false)
  {
    n := |bids| - 1;
    if Scan(cmt, range, bids[..n]).ok {
      ScanStores(cmt, range, bids[..n]);
    } else {
      var init := bids[..n];
      n := ScanKeepsPrefix(cmt, range, init);
      assert init[..n] == bids[..n];
    }
  }

  /** Whatever the caches: a scan that goes through has met no cached block with another hash than announced. */
  lemma {:induction false} ScanExactly(cmt: Cache, range: map<BlockId, Digest>, bids: seq<BlockId>)
    ensures Scan(cmt, range, bids).ok <==>
            forall b :: b in bids && b in cmt ==> b in range && range[b] == cmt[b].hash && cmt[b].booth.indices != []
  {
    if bids != [] {
      ScanExactly(cmt, range, bids[..|bids| - 1]);
      assert forall b :: b in bids <==> b in bids[..|bids| - 1] || b == bids[|bids| - 1];
    }
  }
}
