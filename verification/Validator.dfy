/**
 * A validator's four handlers, each as one step on its caches (comply.go:22-346). The waits they can
 * meet are the subject of CommitHandshake and OrderHandshake.
 */
module Validators {
  import opened Types
  import opened Signatures
  import opened BoothRegistry
  import opened Instances

  /** `tokens` are the instances whose job channel holds a token, `committed` those whose CB handler went through. */
  datatype ValidatorState = ValidatorState(
    ord: Cache, cmt: Cache, metaHash: map<InstId, Digest>,
    dataTx: map<InstId, TxStore>, dataBoo: map<InstId, Booth>, tokens: set<InstId>, committed: set<InstId>)

  const INITIAL_VALIDATOR := ValidatorState(map[], map[], map[], map[], map[], {}, {})

  /** validatingOAEntry: the block ID is used once, and signed when it is. */
  function OAStep(v: ValidatorState, self: ServerId, booth: Booth, id: BlockId, entries: Entries, hash: Digest)
    : (ValidatorState, Option<Share>)
  {
    if id in v.ord then (v, None)
    else
      var snapshot := Snapshot(hash, entries, [], None, booth);
      (v.(ord := v.ord[id := snapshot], cmt := v.cmt[id := snapshot]), Some(Share(self, booth.id, hash)))
  }

  /** validatingOBEntry; a resent entry is the only one stored for a block that was not ordered here. */
  function OBStep(v: ValidatorState, e: OpbEntry, resent: bool): ValidatorState
  {
    if !PenVerify(e.hash, e.combSig, e.booth.id) then v
    else if e.id !in v.ord then
      if resent then v.(cmt := v.cmt[e.id := Snapshot(e.hash, e.entries, [], e.combSig, e.booth)]) else v
    else if e.id in v.cmt then v.(cmt := v.cmt[e.id := v.cmt[e.id].(tSig := e.combSig)])
    else v
  }

  /** The resent entries of a CPA message, one after the other. */
  function CatchUp(v: ValidatorState, prev: seq<OpbEntry>): ValidatorState
  {
    if prev == [] then v else OBStep(CatchUp(v, prev[..|prev| - 1]), prev[|prev| - 1], true)
  }

  /**
   * validatingCAEntry up to its job channel (comply.go:183-266): the instance's store is rebuilt, and the
   * instance signed unless a cached block contradicts it.
   */
  ghost function CACheck(v: ValidatorState, e: CpaEntry): (ValidatorState, bool)
  {
    var v1 := CatchUp(v, e.prev);
    var s := Scan(v1.cmt, e.rangeHash, e.bids);
    var signs := e.bids != [] && s.ok;
    (v1.(metaHash := if signs then v1.metaHash[e.inst := e.totalHash] else v1.metaHash,
         dataTx := v1.dataTx[e.inst := s.tx],
         dataBoo := if s.stored then v1.dataBoo[e.inst := e.booth] else v1.dataBoo),
     signs)
  }

  /**
   * The whole handler. It sends a token on the instance's channel, which holds one, before it replies
   * (comply.go:276-294): while an earlier token is there it waits, and does not reply.
   */
  ghost function CAStep(v: ValidatorState, self: ServerId, e: CpaEntry): (ValidatorState, Option<Share>)
  {
    var (v1, signs) := CACheck(v, e);
    if !signs || e.inst in v1.tokens then (v1, None)
    else (v1.(tokens := v1.tokens + {e.inst}), Some(Share(self, e.booth.id, e.totalHash)))
  }

  /** validatingCBEntry, once its wait is over. */
  function CBStep(v: ValidatorState, booth: Booth, inst: InstId, comSig: Option<Cert>, hash: Digest): ValidatorState
    requires inst in v.tokens
  {
    var v1 := v.(tokens := v.tokens - {inst});
    if PenVerify(hash, comSig, booth.id) then v1.(committed := v1.committed + {inst}) else v1
  }

  /** Scanning stops at the first block that ends it. */
  lemma {:induction false} ScanStops(cmt: Cache, range: map<BlockId, Digest>, bids: seq<BlockId>, n: nat)
    requires n <= |bids| && !Scan(cmt, range, bids[..n]).ok
    ensures Scan(cmt, range, bids) == Scan(cmt, range, bids[..n])
  {
    if n == |bids| {
      assert bids[..n] == bids;
    } else {
      var init := bids[..|bids| - 1];
      assert init[..n] == bids[..n];
      ScanStops(cmt, range, init, n);
    }
  }

  lemma {:induction false} CatchUpKeeps(v: ValidatorState, prev: seq<OpbEntry>)
    ensures var v' := CatchUp(v, prev);
            v'.ord == v.ord && v'.metaHash == v.metaHash && v'.dataTx == v.dataTx && v'.dataBoo == v.dataBoo
            && v'.tokens == v.tokens && v'.committed == v.committed && v.cmt.Keys <= v'.cmt.Keys
  {
    if prev != [] {
      CatchUpKeeps(v, prev[..|prev| - 1]);
    }
  }

  /**
   * After the resend loop a block that was not cached before is cached if and only if one of the resent
   * entries for it carries a signature that verifies.
   */
  lemma {:induction false} CatchUpExactly(v: ValidatorState, prev: seq<OpbEntry>, b: BlockId)
    requires v.ord.Keys <= v.cmt.Keys
    ensures b in CatchUp(v, prev).cmt <==>
            b in v.cmt || exists e :: e in prev && e.id == b && PenVerify(e.hash, e.combSig, e.booth.id)
  {
    if prev != [] {
      var n := |prev| - 1;
      CatchUpExactly(v, prev[..n], b);
      CatchUpKeeps(v, prev[..n]);
      assert forall e :: e in prev <==> e in prev[..n] || e == prev[n];
    }
  }

  /** The last resent entry for a block that verifies. */
  function LastFor(prev: seq<OpbEntry>, id: BlockId): Option<OpbEntry>
  {
    if prev == [] then None
    else
      var e := prev[|prev| - 1];
      if e.id == id && PenVerify(e.hash, e.combSig, e.booth.id) then Some(e) else LastFor(prev[..|prev| - 1], id)
  }

  /** What the resend loop makes of one block: the last verifying entry decides. */
  lemma {:induction false} CatchUpAt(v: ValidatorState, prev: seq<OpbEntry>, id: BlockId)
    ensures var cmt, last := CatchUp(v, prev).cmt, LastFor(prev, id);
            if last.Some? && id !in v.ord then
              var e := last.value;
              id in cmt && cmt[id] == Snapshot(e.hash, e.entries, [], e.combSig, e.booth)
            else
              && (id in cmt <==> id in v.cmt)
              && (id in v.cmt ==> cmt[id] == if last.Some? then v.cmt[id].(tSig := last.value.combSig) else v.cmt[id])
  {
    if prev != [] {
      CatchUpAt(v, prev[..|prev| - 1], id);
      CatchUpKeeps(v, prev[..|prev| - 1]);
    }
  }

  /** The resend loop takes no block's stored signature away. */
  lemma {:induction false} CatchUpKeepsSig(v: ValidatorState, prev: seq<OpbEntry>, id: BlockId)
    requires id in v.ord && id in v.cmt && v.cmt[id].tSig.Some?
    ensures id in CatchUp(v, prev).cmt && CatchUp(v, prev).cmt[id].tSig.Some?
  {
    if prev != [] {
      CatchUpKeepsSig(v, prev[..|prev| - 1], id);
      CatchUpKeeps(v, prev[..|prev| - 1]);
    }
  }

  /** The cached blocks after a resend loop depend on the two caches only. */
  lemma CatchUpSame(v: ValidatorState, w: ValidatorState, prev: seq<OpbEntry>)
    requires v.ord == w.ord && v.cmt == w.cmt
    ensures CatchUp(v, prev).cmt == CatchUp(w, prev).cmt
  {
    forall id: BlockId
      ensures id in CatchUp(v, prev).cmt <==> id in CatchUp(w, prev).cmt
      ensures id in CatchUp(v, prev).cmt ==> CatchUp(v, prev).cmt[id] == CatchUp(w, prev).cmt[id]
    {
      CatchUpAt(v, prev, id);
      CatchUpAt(w, prev, id);
    }
  }

  /** Resending the same entries again changes no cached block. */
  lemma CatchUpTwice(v: ValidatorState, w: ValidatorState, prev: seq<OpbEntry>)
    requires w.ord == v.ord && w.cmt == CatchUp(v, prev).cmt
    ensures CatchUp(w, prev).cmt == w.cmt
  {
    forall id: BlockId
      ensures id in CatchUp(w, prev).cmt <==> id in w.cmt
      ensures id in w.cmt ==> CatchUp(w, prev).cmt[id] == w.cmt[id]
    {
      CatchUpAt(v, prev, id);
      CatchUpAt(w, prev, id);
    }
  }

  /** What the resend loop and the scan come to; the waits and the ordering cache are as before. */
  lemma CheckOutcome(v: ValidatorState, e: CpaEntry)
    ensures var (v1, signs) := CACheck(v, e);
            var mine := CatchUp(v, e.prev).cmt;
            && v1.cmt == mine && v1.ord == v.ord && v1.tokens == v.tokens && v1.committed == v.committed
            && e.inst in v1.dataTx && v1.dataTx[e.inst] == Scan(mine, e.rangeHash, e.bids).tx
            && (signs <==> e.bids != [] && Scan(mine, e.rangeHash, e.bids).ok)
  {
    CatchUpKeeps(v, e.prev);
  }

  lemma OthersSame<T>(m: map<InstId, T>, i: InstId, x: T)
    ensures m[i := x] - {i} == m - {i}
  {
  }

  /** One instance is renewed; whatever is kept of the others stays, signed or not. */
  lemma OtherInstancesStay(v: ValidatorState, e: CpaEntry)
    ensures var v1 := CACheck(v, e).0;
            && v1.dataTx - {e.inst} == v.dataTx - {e.inst} && v1.dataBoo - {e.inst} == v.dataBoo - {e.inst}
            && v1.metaHash - {e.inst} == v.metaHash - {e.inst}
  {
    CatchUpKeeps(v, e.prev);
    OthersSame(v.dataTx, e.inst, Scan(CatchUp(v, e.prev).cmt, e.rangeHash, e.bids).tx);
    OthersSame(v.dataBoo, e.inst, e.booth);
    OthersSame(v.metaHash, e.inst, e.totalHash);
  }

  /**
   * A signed instance has its commit booth and total hash, and stores the blocks held, each once; the booth is
   * entered if and only if there is such a block.
   */
  lemma CheckStores(v: ValidatorState, e: CpaEntry)
    requires CACheck(v, e).1
    ensures var v1 := CACheck(v, e).0;
            && v1.dataTx == v.dataTx[e.inst := TxOf(v1.cmt, e.bids)]
            && v1.metaHash == v.metaHash[e.inst := e.totalHash]
            && v1.dataBoo == if exists b :: b in e.bids && b in v1.cmt then v.dataBoo[e.inst := e.booth] else v.dataBoo
  {
    CatchUpKeeps(v, e.prev);
    ScanStores(CatchUp(v, e.prev).cmt, e.rangeHash, e.bids);
  }

  /** An announcement that is not signed leaves the total hash of its instance as it was. */
  lemma UnsignedKeepsHash(v: ValidatorState, e: CpaEntry)
    requires !CACheck(v, e).1
    ensures CACheck(v, e).0.metaHash == v.metaHash
  {
    CatchUpKeeps(v, e.prev);
  }

  lemma CAOutcome(v: ValidatorState, me: ServerId, e: CpaEntry)
    ensures var (v', reply) := CAStep(v, me, e);
            var mine := CatchUp(v, e.prev).cmt;
            && v'.cmt == mine && e.inst in v'.dataTx && v'.dataTx[e.inst] == Scan(mine, e.rangeHash, e.bids).tx
            && reply == (if e.bids != [] && Scan(mine, e.rangeHash, e.bids).ok && e.inst !in v.tokens
                         then Some(Share(me, e.booth.id, e.totalHash)) else None)
  {
    CheckOutcome(v, e);
  }

  class Validator {
    const self: ServerId
    var ordSnapshot: Cache
    var cmtSnapshot: Cache
    var metaHash: map<InstId, Digest>
    var dataTx: map<InstId, map<string, seq<seq<Entry>>>>
    var dataBoo: map<InstId, Booth>
    var tokens: set<InstId>
    var committed: set<InstId>

    /** A block with an ordering snapshot has a commit snapshot. */
    ghost predicate Valid()
      reads this
    {
      ordSnapshot.Keys <= cmtSnapshot.Keys
    }

    function View(): ValidatorState
      reads this
    {
      ValidatorState(ordSnapshot, cmtSnapshot, metaHash, StoreViews(dataTx), dataBoo, tokens, committed)
    }

    constructor (self: ServerId)
      ensures Valid() && View() == INITIAL_VALIDATOR && this.self == self
    {
      this.self := self;
      ordSnapshot, cmtSnapshot, metaHash, dataTx, dataBoo := map[], map[], map[], map[], map[];
      tokens, committed := {}, {};
    }

    method ValidateOA(booth: Booth, id: BlockId, entries: Entries, hash: Digest) returns (reply: Option<Share>)
      requires Valid()
      modifies this
      ensures Valid() && (View(), reply) == OAStep(old(View()), self, booth, id, entries, hash)
      ensures id in ordSnapshot && (reply.Some? <==> id !in old(ordSnapshot))
      ensures var s := Snapshot(hash, entries, [], None, booth);
              if id in old(ordSnapshot) then ordSnapshot == old(ordSnapshot) && cmtSnapshot == old(cmtSnapshot)
              else ordSnapshot == old(ordSnapshot)[id := s] && cmtSnapshot == old(cmtSnapshot)[id := s]
      ensures reply.Some? ==> ValidShare(reply.value, booth.id, hash) && reply.value.signer == self
    {
      if id in ordSnapshot {
        return None;
      }
      ordSnapshot := ordSnapshot[id := Snapshot(hash, entries, [], None, booth)];
      cmtSnapshot := cmtSnapshot[id := Snapshot(hash, entries, [], None, booth)];
      reply := Some(Share(self, booth.id, hash));
    }

    method ValidateOB(e: OpbEntry, resent: bool)
      requires Valid()
      modifies this
      ensures Valid() && View() == OBStep(old(View()), e, resent)
      ensures ordSnapshot == old(ordSnapshot) && dataTx == old(dataTx)
      ensures PenVerify(e.hash, e.combSig, e.booth.id) && e.id in ordSnapshot ==>
                cmtSnapshot == old(cmtSnapshot[e.id := cmtSnapshot[e.id].(tSig := e.combSig)])
      ensures PenVerify(e.hash, e.combSig, e.booth.id) && e.id !in ordSnapshot && resent ==>
                cmtSnapshot == old(cmtSnapshot)[e.id := Snapshot(e.hash, e.entries, [], e.combSig, e.booth)]
      ensures !PenVerify(e.hash, e.combSig, e.booth.id) || (e.id !in ordSnapshot && !resent) ==>
                cmtSnapshot == old(cmtSnapshot)
    {
      if !PenVerify(e.hash, e.combSig, e.booth.id) {
        return;
      }
      if e.id !in ordSnapshot {
        if resent {
          cmtSnapshot := cmtSnapshot[e.id := Snapshot(e.hash, e.entries, [], e.combSig, e.booth)];
        }
        return;
      }
      cmtSnapshot := cmtSnapshot[e.id := cmtSnapshot[e.id].(tSig := e.combSig)];
    }

    /** No reply is given where none is due, and none while the handler waits at a full channel. */
    method ValidateCA(e: CpaEntry) returns (reply: Option<Share>)
      requires Valid()
      modifies this
      ensures Valid() && (View(), reply) == CAStep(old(View()), self, e)
      ensures tokens == old(tokens) + (if reply.Some? then {e.inst} else {}) && (reply.Some? ==> e.inst !in old(tokens))
      ensures ordSnapshot == old(ordSnapshot) && e.inst in dataTx && dataTx - {e.inst} == old(dataTx) - {e.inst}
      ensures dataBoo == old(dataBoo) || dataBoo == old(dataBoo)[e.inst := e.booth]
      ensures reply.Some? ==>
                metaHash == old(metaHash)[e.inst := e.totalHash]
                && StoreViews(dataTx) == StoreViews(old(dataTx))[e.inst := TxOf(cmtSnapshot, e.bids)]
      ensures reply.Some? ==> forall b :: b in e.bids && b in cmtSnapshot ==>
                b in e.rangeHash && e.rangeHash[b] == cmtSnapshot[b].hash
    {
      var signs := CheckAnnouncement(e);
      if !signs || e.inst in tokens {
        return None;
      }
      CheckStores(old(View()), e);
      tokens := tokens + {e.inst};
      reply := Some(Share(self, e.booth.id, e.totalHash));
    }

    method CheckAnnouncement(e: CpaEntry) returns (signs: bool)
      requires Valid()
      modifies this
      ensures Valid() && (View(), signs) == CACheck(old(View()), e) && tokens == old(tokens)
      ensures ordSnapshot == old(ordSnapshot) && e.inst in dataTx && dataTx - {e.inst} == old(dataTx) - {e.inst}
      ensures dataBoo == old(dataBoo) || dataBoo == old(dataBoo)[e.inst := e.booth]
      ensures signs ==> forall b :: b in e.bids && b in cmtSnapshot ==>
                b in e.rangeHash && e.rangeHash[b] == cmtSnapshot[b].hash
    {
      ValidatePrevious(e.prev);
      CatchUpKeeps(old(View()), e.prev);
      if e.bids == [] {
        StoreViewsUpdate(dataTx, e.inst, map[]);
        OthersSame(dataTx, e.inst, map[]);
        dataTx := dataTx[e.inst := map[]];
        return false;
      }
      var store, stored, ok := ScanRange(e.rangeHash, e.bids);
      ScanExactly(cmtSnapshot, e.rangeHash, e.bids);
      StoreViewsUpdate(dataTx, e.inst, store);
      OthersSame(dataTx, e.inst, store);
      dataTx := dataTx[e.inst := store];
      if stored {
        dataBoo := dataBoo[e.inst := e.booth];
      }
      if ok {
        metaHash := metaHash[e.inst := e.totalHash];
      }
      signs := ok;
    }

    method ValidatePrevious(prev: seq<OpbEntry>)
      requires Valid()
      modifies this
      ensures Valid() && View() == CatchUp(old(View()), prev)
      ensures dataTx == old(dataTx)
    {
      for i := 0 to |prev|
        invariant Valid() && View() == CatchUp(old(View()), prev[..i]) && dataTx == old(dataTx)
      {
        assert prev[..i + 1][..i] == prev[..i];
        ValidateOB(prev[i], true);
      }
      assert prev[..|prev|] == prev;
    }

    /** The loop over the announced blocks (comply.go:209-249). */
    method ScanRange(range: map<BlockId, Digest>, bids: seq<BlockId>)
      returns (store: map<string, seq<seq<Entry>>>, stored: bool, ok: bool)
      ensures Scan(cmtSnapshot, range, bids) == Scanned(StoreView(store), stored, ok)
    {
      store, stored, ok := map[], false, true;
      var n := 0;
      while n < |bids|
        invariant 0 <= n <= |bids| && ok
        invariant Scan(cmtSnapshot, range, bids[..n]) == Scanned(StoreView(store), stored, true)
      {
        var b := bids[n];
        assert bids[..n + 1][..n] == bids[..n] && bids[..n + 1][n] == b;
        n := n + 1;
        if b !in cmtSnapshot {
          continue;
        }
        var snapshot := cmtSnapshot[b];
        if b !in range || snapshot.hash != range[b] {
          ok := false;
          ScanStops(cmtSnapshot, range, bids, n);
          return;
        }
        var blockEntries := ListEntries(snapshot.entries);
        var boo := BoothName(snapshot.booth);
        if boo.None? {
          ok := false;
          ScanStops(cmtSnapshot, range, bids, n);
          return;
        }
        store := StoreBlock(store, boo.value, blockEntries);
        stored := true;
      }
      assert bids[..n] == bids;
    }

    method ValidateCB(booth: Booth, inst: InstId, comSig: Option<Cert>, hash: Digest)
      requires Valid() && inst in tokens
      modifies this
      ensures Valid() && View() == CBStep(old(View()), booth, inst, comSig, hash)
      ensures tokens == old(tokens) - {inst}
      ensures committed == old(committed) + if PenVerify(hash, comSig, booth.id) then {inst} else {}
      ensures ordSnapshot == old(ordSnapshot) && cmtSnapshot == old(cmtSnapshot)
    {
      tokens := tokens - {inst};
      if !PenVerify(hash, comSig, booth.id) {
        return;
      }
      committed := committed + {inst};
    }
  }
}
