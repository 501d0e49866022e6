/** Values shared by every part of the model: entries, booths, digests and block snapshots. */
module Types {

  datatype Option<+T> = None | Some(value: T)

  type ServerId = nat
  type BlockId = nat
  type InstId = nat
  type Bytes = seq<bv8>

  /** A transaction with its time stamp (msgformat.go:13-16). */
  datatype Entry = Entry(timeStamp: int, tx: Bytes)

  /** The entries of a block, under the keys 0, 1, 2, ... that the shuffle buffer gave them. */
  type Entries = map<int, Entry>

  /** A membership profile: its position in the registry and its members (mmu.go:23-29). */
  datatype Booth = Booth(id: nat, indices: seq<ServerId>)

  /**
   * A collision-free digest carries what was digested: equal digests, equal contents.
   * OfBlock is the digest of a block's entries, OfRange the digest of the hashes announced
   * by a consensus instance.
   */
  datatype Digest = OfBlock(entries: Entries) | OfRange(hashes: map<BlockId, Digest>)

  /** A member's signature share on a digest, made with its key for one booth. */
  datatype Share = Share(signer: ServerId, boothId: nat, digest: Digest)

  /** A combined signature together with the members whose shares were combined. */
  datatype Cert = Cert(boothId: nat, digest: Digest, signers: set<ServerId>)

  /** What a server caches about a block (cache.go:30-42). */
  datatype Snapshot = Snapshot(hash: Digest, entries: Entries, sigs: seq<Share>, tSig: Option<Cert>, booth: Booth)

  function Flatten<T>(xss: seq<seq<T>>): (r: seq<T>)
  {
    if xss == [] then [] else Flatten(xss[..|xss| - 1]) + xss[|xss| - 1]
  }

  ghost predicate Distinct<T(!new)>(xs: seq<T>)
  {
    forall i, j :: 0 <= i < j < |xs| ==> xs[i] != xs[j]
  }

  /** `idx` lists the positions in `kept` in ascending order. */
  ghost predicate ListsInOrder(idx: seq<nat>, kept: set<nat>)
  {
    && (forall i, j :: 0 <= i < j < |idx| ==> idx[i] < idx[j])
    && (forall k: nat :: k in idx <==> k in kept)
  }

  lemma {:induction false} FlattenConcat<T>(xss: seq<seq<T>>, yss: seq<seq<T>>)
    ensures Flatten(xss + yss) == Flatten(xss) + Flatten(yss)
  {
    if yss == [] {
      assert xss + yss == xss;
    } else {
      var init := yss[..|yss| - 1];
      assert (xss + yss)[..|xss + yss| - 1] == xss + init;
      FlattenConcat(xss, init);
    }
  }

  lemma {:induction false} FlattenMember<T(!new)>(xss: seq<seq<T>>, x: T)
    ensures x in Flatten(xss) <==> exists i :: 0 <= i < |xss| && x in xss[i]
  {
    if xss != [] {
      FlattenMember(xss[..|xss| - 1], x);
      if x in Flatten(xss[..|xss| - 1]) {
        var i :| 0 <= i < |xss| - 1 && x in xss[..|xss| - 1][i];
        assert x in xss[i];
      }
      if exists i :: 0 <= i < |xss| && x in xss[i] {
        var i :| 0 <= i < |xss| && x in xss[i];
        if i < |xss| - 1 {
          assert xss[..|xss| - 1][i] == xss[i];
        }
      }
    }
  }

  lemma {:induction false} FlattenRepeats<T(!new)>(xss: seq<seq<T>>, i: nat, j: nat, x: T)
    requires i < j < |xss| && x in xss[i] && x in xss[j]
    ensures !Distinct(Flatten(xss))
  {
    var n := |xss| - 1;
    var front, whole := Flatten(xss[..n]), Flatten(xss);
    if j < n {
      FlattenRepeats(xss[..n], i, j, x);
      var a, b :| 0 <= a < b < |front| && front[a] == front[b];
      assert whole[a] == whole[b];
    } else {
      assert x in xss[..n][i];
      FlattenMember(xss[..n], x);
      var a :| 0 <= a < |front| && front[a] == x;
      var b :| 0 <= b < |xss[n]| && xss[n][b] == x;
      assert whole[a] == whole[|front| + b];
    }
  }

  /** In a concatenation without repetitions an element belongs to one part only. */
  lemma FlattenDistinct<T(!new)>(xss: seq<seq<T>>, i: nat, j: nat, x: T)
    requires Distinct(Flatten(xss))
    requires i < |xss| && j < |xss| && x in xss[i] && x in xss[j]
    ensures i == j
  {
    if i != j {
      FlattenRepeats(xss, if i < j then i else j, if i < j then j else i, x);
    }
  }

  lemma {:induction false} FlattenPartDistinct<T(!new)>(xss: seq<seq<T>>, i: nat)
    requires i < |xss| && Distinct(Flatten(xss))
    ensures Distinct(xss[i])
  {
    var n := |xss| - 1;
    var front, whole := Flatten(xss[..n]), Flatten(xss);
    if i < n {
      assert forall j, k :: 0 <= j < k < |front| ==> whole[j] == front[j] && whole[k] == front[k];
      FlattenPartDistinct(xss[..n], i);
    } else {
      assert forall j :: 0 <= j < |xss[n]| ==> whole[|front| + j] == xss[n][j];
    }
  }

  predicate InPart<T(==)>(xss: seq<seq<T>>, i: nat, x: T)
  {
    i < |xss| && x in xss[i]
  }

  /** What a concatenation without repetitions contains is in exactly one part. */
  lemma FlattenOnce<T(!new)>(xss: seq<seq<T>>, x: T)
    requires Distinct(Flatten(xss))
    ensures forall i, j :: InPart(xss, i, x) && InPart(xss, j, x) ==> i == j
    ensures x in Flatten(xss) <==> exists i :: InPart(xss, i, x)
  {
    forall i, j | InPart(xss, i, x) && InPart(xss, j, x) ensures i == j {
      FlattenDistinct(xss, i, j, x);
    }
    FlattenMember(xss, x);
    if i :| 0 <= i < |xss| && x in xss[i] {
      assert InPart(xss, i, x);
    }
  }
}
