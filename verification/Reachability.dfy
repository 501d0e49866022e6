/**
 * The two reachability tables that routing reads, built from one table of who can be reached when
 * (artery-data/make-single-communication-data.py).
 */
module Reachability {
  import opened Types

  type TimeKey = string

  /** For each time key and each proposer, the servers it can reach. */
  type CommData = map<TimeKey, map<ServerId, seq<ServerId>>>

  /** For a server and a time key, the servers on the other side that it can reach: output[server][key]. */
  type Table = map<(ServerId, TimeKey), seq<ServerId>>

  datatype Tables = Tables(proToVal: Table, valToPro: Table)

  /** A lookup yields nothing where an entry is missing (mmu.go:463, 469, 489-491). */
  function Row(t: Table, node: ServerId, key: TimeKey): seq<ServerId>
  {
    if (node, key) in t then t[(node, key)] else []
  }

  /** Every proposer has a row under every time key; otherwise the script stops with a key error. */
  predicate Complete(proposers: seq<ServerId>, data: CommData)
  {
    forall k, p :: k in data && p in proposers ==> p in data[k]
  }

  function Cell(data: CommData, p: ServerId, k: TimeKey): seq<ServerId>
  {
    if k in data && p in data[k] then data[k][p] else []
  }

  /** The proposers, in list order, that reach `v`. */
  function Reaching(proposers: seq<ServerId>, data: CommData, v: ServerId, k: TimeKey): seq<ServerId>
  {
    if proposers == [] then []
    else
      var init, p := proposers[..|proposers| - 1], proposers[|proposers| - 1];
      Reaching(init, data, v, k) + (if v in Cell(data, p, k) then [p] else [])
  }

  /** Proposer p's row at time k is what the data says, for the times in `keys`. */
  ghost predicate IsProposerTable(t: Table, proposers: seq<ServerId>, data: CommData, keys: set<TimeKey>)
  {
    && (forall p, k :: (p, k) in t <==> p in proposers && k in keys)
    && (forall p, k :: (p, k) in t ==> t[(p, k)] == Cell(data, p, k))
  }

  /** Validator v's row at time k is the list of proposers that reach it, for the times in `keys`. */
  ghost predicate IsValidatorTable(t: Table, proposers: seq<ServerId>, validators: seq<ServerId>, data: CommData,
                                   keys: set<TimeKey>)
  {
    && (forall v, k :: (v, k) in t <==> v in validators && k in keys)
    && (forall v, k :: (v, k) in t ==> t[(v, k)] == Reaching(proposers, data, v, k))
  }

  ghost predicate Generated(t: Tables, proposers: seq<ServerId>, validators: seq<ServerId>, data: CommData)
  {
    && IsProposerTable(t.proToVal, proposers, data, data.Keys)
    && IsValidatorTable(t.valToPro, proposers, validators, data, data.Keys)
  }

  method FillProposers(proposers: seq<ServerId>, data: CommData) returns (r: Option<Table>)
    ensures r.None? <==> !Complete(proposers, data)
    ensures r.Some? ==> IsProposerTable(r.value, proposers, data, data.Keys)
  {
    var table: Table := map[];
    var todo := data.Keys;
    while todo != {}
      invariant todo <= data.Keys
      invariant forall k, p :: k in data && k !in todo && p in proposers ==> p in data[k]
      invariant IsProposerTable(table, proposers, data, data.Keys - todo)
      decreases |todo|
    {
      var key :| key in todo;
      ghost var before := table;
      for i := 0 to |proposers|
        invariant forall p :: p in proposers[..i] ==> p in data[key]
        invariant forall p, k :: (p, k) in table <==> (p, k) in before || (p in proposers[..i] && k == key)
        invariant forall p, k :: (p, k) in table ==> table[(p, k)] == Cell(data, p, k)
      {
        var p := proposers[i];
        if p !in data[key] {
          assert key in data && p in proposers;
          return None;
        }
        table := table[(p, key) := data[key][p]];
        assert proposers[..i + 1] == proposers[..i] + [p];
      }
      assert proposers[..|proposers|] == proposers;
      todo := todo - {key};
    }
    r := Some(table);
  }

  method CommunicationList(proposers: seq<ServerId>, data: CommData, v: ServerId, k: TimeKey)
    returns (list: seq<ServerId>)
    requires k in data && Complete(proposers, data)
    ensures list == Reaching(proposers, data, v, k)
  {
    list := [];
    for i := 0 to |proposers|
      invariant list == Reaching(proposers[..i], data, v, k)
    {
      var p := proposers[i];
      assert proposers[..i + 1][..i] == proposers[..i] && p in proposers;
      if v in data[k][p] {
        list := list + [p];
      }
    }
    assert proposers[..|proposers|] == proposers;
  }

  method FillValidators(proposers: seq<ServerId>, validators: seq<ServerId>, data: CommData) returns (table: Table)
    requires Complete(proposers, data)
    ensures IsValidatorTable(table, proposers, validators, data, data.Keys)
  {
    table := map[];
    var todo := data.Keys;
    while todo != {}
      invariant todo <= data.Keys
      invariant IsValidatorTable(table, proposers, validators, data, data.Keys - todo)
      decreases |todo|
    {
      var key :| key in todo;
      ghost var before := table;
      for i := 0 to |validators|
        invariant forall v, k :: (v, k) in table <==> (v, k) in before || (v in validators[..i] && k == key)
        invariant forall v, k :: (v, k) in table ==> table[(v, k)] == Reaching(proposers, data, v, k)
      {
        var v := validators[i];
        var list := CommunicationList(proposers, data, v, key);
        table := table[(v, key) := list];
        assert validators[..i + 1] == validators[..i] + [v];
      }
      assert validators[..|validators|] == validators;
      todo := todo - {key};
    }
  }

  /** Both tables, or nothing where the script stops with a key error. */
  method Generate(proposers: seq<ServerId>, validators: seq<ServerId>, data: CommData) returns (r: Option<Tables>)
    ensures r.None? <==> !Complete(proposers, data)
    ensures r.Some? ==> Generated(r.value, proposers, validators, data)
  {
    var pro := FillProposers(proposers, data);
    if pro.None? {
      return None;
    }
    var val := FillValidators(proposers, validators, data);
    r := Some(Tables(pro.value, val));
  }

  lemma {:induction false} ReachingMember(proposers: seq<ServerId>, data: CommData, v: ServerId, k: TimeKey,
                                          p: ServerId)
    ensures p in Reaching(proposers, data, v, k) <==> p in proposers && v in Cell(data, p, k)
  {
    if proposers != [] {
      ReachingMember(proposers[..|proposers| - 1], data, v, k, p);
    }
  }

  /** The positions in the proposer list of those that reach `v`. */
  function ReachingAt(proposers: seq<ServerId>, data: CommData, v: ServerId, k: TimeKey): set<nat>
  {
    set i: nat | i < |proposers| && v in Cell(data, proposers[i], k)
  }

  /** A validator's row has exactly those proposers, in ascending order of their positions. */
  lemma {:induction false} ReachingInOrder(proposers: seq<ServerId>, data: CommData, v: ServerId, k: TimeKey)
    returns (idx: seq<nat>)
    ensures ListsInOrder(idx, ReachingAt(proposers, data, v, k)) && |idx| == |Reaching(proposers, data, v, k)|
    ensures forall i :: 0 <= i < |idx| ==>
              idx[i] < |proposers| && Reaching(proposers, data, v, k)[i] == proposers[idx[i]]
  {
    idx := [];
    if proposers != [] {
      var n := |proposers| - 1;
      var init := ReachingInOrder(proposers[..n], data, v, k);
      assert forall i :: i in ReachingAt(proposers[..n], data, v, k)
                         <==> i < n && i in ReachingAt(proposers, data, v, k);
      assert forall i :: 0 <= i < |init| ==> init[i] in ReachingAt(proposers[..n], data, v, k);
      idx := init + if n in ReachingAt(proposers, data, v, k) then [n] else [];
    }
  }

  /** The i-th proposer is the first in the list that reaches `v`. */
  ghost predicate FirstReaching(proposers: seq<ServerId>, data: CommData, v: ServerId, k: TimeKey, i: nat)
  {
    && i < |proposers| && v in Cell(data, proposers[i], k)
    && forall j :: 0 <= j < i ==> v !in Cell(data, proposers[j], k)
  }

  lemma HeadIsFirst(proposers: seq<ServerId>, data: CommData, v: ServerId, k: TimeKey, i: nat)
    requires FirstReaching(proposers, data, v, k, i)
    ensures Reaching(proposers, data, v, k) != [] && Reaching(proposers, data, v, k)[0] == proposers[i]
  {
    var idx := ReachingInOrder(proposers, data, v, k);
    assert i in ReachingAt(proposers, data, v, k);
    var j :| 0 <= j < |idx| && idx[j] == i;
    assert idx[0] in idx;
    assert idx[0] in ReachingAt(proposers, data, v, k);
  }

  /** The head of a row is the first proposer that reaches `v`; a row is empty if and only if there is none. */
  lemma HeadReachesFirst(proposers: seq<ServerId>, data: CommData, v: ServerId, k: TimeKey)
    ensures Reaching(proposers, data, v, k) == [] <==> forall p :: p in proposers ==> v !in Cell(data, p, k)
    ensures forall i: nat :: FirstReaching(proposers, data, v, k, i) ==>
              Reaching(proposers, data, v, k) != [] && Reaching(proposers, data, v, k)[0] == proposers[i]
  {
    forall p ensures p in Reaching(proposers, data, v, k) <==> p in proposers && v in Cell(data, p, k) {
      ReachingMember(proposers, data, v, k, p);
    }
    if Reaching(proposers, data, v, k) != [] {
      assert Reaching(proposers, data, v, k)[0] in Reaching(proposers, data, v, k);
    }
    forall i: nat | FirstReaching(proposers, data, v, k, i)
      ensures Reaching(proposers, data, v, k) != [] && Reaching(proposers, data, v, k)[0] == proposers[i]
    {
      HeadIsFirst(proposers, data, v, k, i);
    }
  }

  /** In the generated tables a proposer lists a validator exactly when the validator lists the proposer. */
  lemma TablesSymmetric(t: Tables, proposers: seq<ServerId>, validators: seq<ServerId>, data: CommData,
                        p: ServerId, v: ServerId, k: TimeKey)
    requires Generated(t, proposers, validators, data) && v in validators
    ensures p in Row(t.valToPro, v, k) <==> p in proposers && v in Row(t.proToVal, p, k)
  {
    ReachingMember(proposers, data, v, k, p);
  }
}
