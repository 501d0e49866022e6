/** Sets of servers that are large enough, and how they overlap. */
module Quorums {
  import opened Types

  lemma SubsetSize(a: set<nat>, b: set<nat>)
    requires a <= b
    ensures |a| <= |b|
  {
    assert b == a + (b - a);
  }

  lemma {:induction false} Pick(s: set<ServerId>, n: nat) returns (r: set<ServerId>)
    requires n <= |s|
    ensures r <= s && |r| == n
  {
    if n == 0 {
      r := {};
    } else {
      var x :| x in s;
      var sub := Pick(s - {x}, n - 1);
      r := sub + {x};
    }
  }

  lemma UnionSize(a: set<ServerId>, b: set<ServerId>)
    ensures |a + b| == |a| + |b| - |a * b|
  {
    assert a + b == a + (b - a) && |b| == |b - a| + |a * b| by {
      assert b == (b - a) + (a * b);
    }
  }

  /** Two quorums that share exactly `shared`. */
  lemma TwoQuorums(members: set<ServerId>, shared: set<ServerId>, t: nat) returns (q1: set<ServerId>, q2: set<ServerId>)
    requires shared <= members && t <= |members|
    requires |shared| == if 2 * t > |members| then 2 * t - |members| else 0
    ensures q1 <= members && q2 <= members && |q1| == t && |q2| == t && q1 * q2 == shared
  {
    var rest := members - shared;
    assert members == shared + rest && |rest| == |members| - |shared|;
    var a := Pick(rest, t - |shared|);
    assert |rest - a| == |rest| - |a|;
    var b := Pick(rest - a, t - |shared|);
    q1, q2 := shared + a, shared + b;
    assert q1 * q2 == shared;
  }
}
