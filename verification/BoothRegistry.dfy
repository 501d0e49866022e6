/**
 * The booth registry: dense booth IDs and a key index that replaces a linear scan
 * (mmu.go:41-65, mmu.go:210-216, mmu.go:235-261), with the key encoding it relies on.
 */
module BoothRegistry {
  import opened Types

  // ----- The booth key: decimal IDs, joined without a separator -----

  function Digit(d: nat): char
    requires d < 10
  {
    "0123456789"[d]
  }

  function Decimal(n: nat): (s: string)
    ensures |s| >= 1
  {
    if n < 10 then [Digit(n)] else Decimal(n / 10) + [Digit(n % 10)]
  }

  /** The number that a text of decimal digits denotes. */
  function Value(s: string): int
  {
    if s == "" then 0 else Value(s[..|s| - 1]) * 10 + (s[|s| - 1] as int - '0' as int)
  }

  lemma DigitValue(d: nat)
    requires d < 10
    ensures Digit(d) as int == '0' as int + d
  {
    assert forall i: nat :: i < 10 ==> "0123456789"[i] as int == '0' as int + i;
  }

  /** An ID reads back as itself, and is written with digits only and without leading zeros. */
  lemma {:induction false} ReadBack(n: nat)
    ensures Value(Decimal(n)) == n
    ensures forall i :: 0 <= i < |Decimal(n)| ==> '0' <= Decimal(n)[i] <= '9'
    ensures Decimal(n)[0] == '0' ==> n == 0 && |Decimal(n)| == 1
  {
    DigitValue(n % 10);
    if n < 10 {
      assert Value([Digit(n)]) == Value([]) * 10 + n;
    } else {
      ReadBack(n / 10);
      assert Decimal(n)[..|Decimal(n)| - 1] == Decimal(n / 10);
    }
  }

  /** The text that Booth.String joins and that generateBoothHash digests without collisions. */
  function Key(ids: seq<ServerId>): string
  {
    if ids == [] then "" else Decimal(ids[0]) + Key(ids[1..])
  }

  /** Booth.String (mmu.go:41-52): a booth without members has no name. */
  function BoothName(b: Booth): Option<string>
  {
    if b.indices == [] then None else Some(Key(b.indices))
  }

  function Widths(ids: seq<ServerId>): seq<nat>
  {
    seq(|ids|, i requires 0 <= i < |ids| => |Decimal(ids[i])|)
  }

  lemma {:induction false} DecimalInjective(a: nat, b: nat)
    requires Decimal(a) == Decimal(b)
    ensures a == b
  {
    var s, t := Decimal(a), Decimal(b);
    assert s[|s| - 1] == Digit(a % 10) && t[|t| - 1] == Digit(b % 10);
    if a >= 10 && b >= 10 {
      assert s[..|s| - 1] == Decimal(a / 10) && t[..|t| - 1] == Decimal(b / 10);
      DecimalInjective(a / 10, b / 10);
    }
  }

  /** Among lists whose IDs have the same widths position by position, the key tells lists apart. */
  lemma {:induction false} KeyInjectiveOnWidths(a: seq<ServerId>, b: seq<ServerId>)
    requires Widths(a) == Widths(b) && Key(a) == Key(b)
    ensures a == b
  {
    assert |Widths(a)| == |a| && |Widths(b)| == |b|;
    if a != [] {
      var w := |Decimal(a[0])|;
      assert Widths(a)[0] == Widths(b)[0] == w;
      assert Key(a)[..w] == Decimal(a[0]) && Key(b)[..w] == Decimal(b[0]);
      assert Key(a)[w..] == Key(a[1..]) && Key(b)[w..] == Key(b[1..]);
      DecimalInjective(a[0], b[0]);
      assert Widths(a[1..]) == Widths(a)[1..] && Widths(b[1..]) == Widths(b)[1..];
      KeyInjectiveOnWidths(a[1..], b[1..]);
      assert a == [a[0]] + a[1..] && b == [b[0]] + b[1..];
    }
  }

  lemma OneMoreWidth(w: nat, n: nat)
    ensures w * (n + 1) == w + w * n
  {
  }

  lemma {:induction false} KeyLength(ids: seq<ServerId>, w: nat)
    requires forall i :: 0 <= i < |ids| ==> |Decimal(ids[i])| == w
    ensures |Key(ids)| == w * |ids|
  {
    if ids != [] {
      var rest := ids[1..];
      assert forall i :: 0 <= i < |rest| ==> rest[i] == ids[i + 1];
      KeyLength(rest, w);
      assert |Key(ids)| == w + |Key(rest)|;
      OneMoreWidth(w, |rest|);
    }
  }

  /** IDs of one common width: the key determines the member list, its length included. */
  lemma KeyInjectiveOnEqualWidth(a: seq<ServerId>, b: seq<ServerId>, w: nat)
    requires forall i :: 0 <= i < |a| ==> |Decimal(a[i])| == w
    requires forall i :: 0 <= i < |b| ==> |Decimal(b[i])| == w
    requires Key(a) == Key(b)
    ensures a == b
  {
    KeyLength(a, w);
    KeyLength(b, w);
    if |a| < |b| {
      LongerKey(w, |a|, |b|);
    } else if |b| < |a| {
      LongerKey(w, |b|, |a|);
    } else {
      KeyInjectiveOnWidths(a, b);
    }
  }

  lemma LongerKey(w: nat, m: nat, n: nat)
    requires m < n
    ensures w >= 1 ==> w * m < w * n
  {
    assert w * n == w * m + w * (n - m);
    if w >= 1 {
      assert w * (n - m) >= 1;
    }
  }

  ghost predicate Sorted(s: seq<ServerId>)
  {
    forall i, j :: 0 <= i < j < |s| ==> s[i] <= s[j]
  }

  /** How many one-digit IDs a sorted list of IDs below 100 starts with. */
  lemma {:induction false} OneDigitPrefix(ids: seq<ServerId>) returns (k: nat)
    requires Sorted(ids) && forall i :: 0 <= i < |ids| ==> ids[i] < 100
    ensures k <= |ids| && |Key(ids)| + k == 2 * |ids|
    ensures forall i :: 0 <= i < |ids| ==> |Decimal(ids[i])| == if i < k then 1 else 2
  {
    if ids == [] {
      k := 0;
    } else {
      var rest := ids[1..];
      k := OneDigitPrefix(rest);
      assert forall i :: 0 < i < |ids| ==> ids[i] == rest[i - 1];
      assert |Decimal(ids[0])| == if ids[0] < 10 then 1 else 2;
      if ids[0] < 10 {
        k := k + 1;
      } else if rest != [] {
        assert ids[0] <= rest[0] && |Decimal(rest[0])| == 2;
      }
    }
  }

  /** Sorted lists of equal length with IDs below 100: the key determines the list. */
  lemma KeyInjectiveBelow100(a: seq<ServerId>, b: seq<ServerId>)
    requires Sorted(a) && Sorted(b) && |a| == |b| && Key(a) == Key(b)
    requires forall i :: 0 <= i < |a| ==> a[i] < 100 && b[i] < 100
    ensures a == b
  {
    var k := OneDigitPrefix(a);
    var l := OneDigitPrefix(b);
    assert k == l;
    assert Widths(a) == Widths(b);
    KeyInjectiveOnWidths(a, b);
  }

  /** Neither bound can be dropped: with an ID of three digits, or without equal lengths, keys collide. */
  lemma KeyCollides()
    ensures Sorted([1, 234]) && Sorted([12, 34]) && Key([1, 234]) == Key([12, 34])
    ensures Sorted([1, 2]) && Key([1, 2]) == Key([12])
  {
    TwoDigits();
    PairKey(1, 234);
    PairKey(12, 34);
    PairKey(1, 2);
    assert Key([12]) == Decimal(12) + Key([]);
  }

  lemma TwoDigits()
    ensures Decimal(12) == "12" && Decimal(34) == "34" && Decimal(234) == "234" && Decimal(1) == "1"
            && Decimal(2) == "2"
  {
    assert Decimal(12) == Decimal(1) + [Digit(2)];
    assert Decimal(34) == Decimal(3) + [Digit(4)];
    assert Decimal(23) == Decimal(2) + [Digit(3)];
    assert Decimal(234) == Decimal(23) + [Digit(4)];
  }

  lemma PairKey(a: ServerId, b: ServerId)
    ensures Key([a, b]) == Decimal(a) + Decimal(b)
  {
    assert [a, b][1..] == [b] && [b][1..] == [];
    assert Key([b]) == Decimal(b) + Key([]);
  }

  // ----- Sorting -----

  function Insert(x: ServerId, s: seq<ServerId>): (r: seq<ServerId>)
    ensures multiset(r) == multiset(s) + multiset{x}
  {
    if s == [] || x <= s[0] then [x] + s
    else
      assert s == [s[0]] + s[1..];
      [s[0]] + Insert(x, s[1..])
  }

  lemma {:induction false} InsertSorted(x: ServerId, s: seq<ServerId>)
    requires Sorted(s)
    ensures Sorted(Insert(x, s))
  {
    if s != [] && x > s[0] {
      var t := Insert(x, s[1..]);
      InsertSorted(x, s[1..]);
      forall y | y in t ensures s[0] <= y {
        assert y in multiset(t);
        assert y == x || y in s[1..];
      }
      var r := [s[0]] + t;
      assert r == Insert(x, s);
      assert forall i :: 0 < i < |r| ==> r[i] == t[i - 1] && r[i] in t;
    }
  }

  /** The sorted list that sort.Ints leaves in the pattern. */
  function SortInts(s: seq<ServerId>): (r: seq<ServerId>)
    ensures Sorted(r) && multiset(r) == multiset(s)
  {
    if s == [] then []
    else
      assert s == [s[0]] + s[1..];
      InsertSorted(s[0], SortInts(s[1..]));
      Insert(s[0], SortInts(s[1..]))
  }

  lemma SortedFirst(a: seq<ServerId>)
    requires Sorted(a) && a != []
    ensures forall y :: y in multiset(a) ==> a[0] <= y
  {
    forall y | y in multiset(a) ensures a[0] <= y {
      assert y in a;
    }
  }

  lemma SameTail(a: seq<ServerId>, b: seq<ServerId>)
    requires a != [] && b != [] && a[0] == b[0] && multiset(a) == multiset(b)
    ensures multiset(a[1..]) == multiset(b[1..])
  {
    assert a == [a[0]] + a[1..] && b == [b[0]] + b[1..];
    assert multiset(a[1..]) == multiset(a) - multiset{a[0]};
    assert multiset(b[1..]) == multiset(b) - multiset{b[0]};
  }

  lemma {:induction false} SortedPermutationUnique(a: seq<ServerId>, b: seq<ServerId>)
    requires Sorted(a) && Sorted(b) && multiset(a) == multiset(b)
    ensures a == b
  {
    assert |multiset(a)| == |a| && |multiset(b)| == |b|;
    if a != [] {
      SortedFirst(a);
      SortedFirst(b);
      assert a[0] in multiset(a) && b[0] in multiset(b);
      SameTail(a, b);
      SortedPermutationUnique(a[1..], b[1..]);
      assert a == [a[0]] + a[1..] && b == [b[0]] + b[1..];
    }
  }

  // ----- The registry -----

  datatype Registry = Registry(b: seq<Booth>, index: map<string, nat>)
  {
    /** IDs are positions, and the index knows the key of every booth and of no other. */
    ghost predicate Valid()
    {
      && (forall i :: 0 <= i < |b| ==> b[i].id == i && Key(b[i].indices) in index && index[Key(b[i].indices)] == i)
      && (forall k :: k in index ==> index[k] < |b| && Key(b[index[k]].indices) == k)
    }
  }

  const EMPTY_REGISTRY := Registry([], map[])

  /** The lookup of an already sorted member list, entering it when its key is new. */
  function Enter(reg: Registry, members: seq<ServerId>): (Registry, nat)
  {
    var key := Key(members);
    if key in reg.index then (reg, reg.index[key])
    else (Registry(reg.b + [Booth(|reg.b|, members)], reg.index[key := |reg.b|]), |reg.b|)
  }

  /** checkExactMatchInBooMgr (mmu.go:235-261). */
  function Lookup(reg: Registry, pattern: seq<ServerId>): (Registry, nat)
  {
    Enter(reg, SortInts(pattern))
  }

  /** Stored booths never change, so a booth once handed out is found again under its ID. */
  lemma EnterStable(reg: Registry, members: seq<ServerId>)
    requires reg.Valid()
    ensures var (reg', id) := Enter(reg, members);
            && reg'.Valid() && reg.b <= reg'.b && id < |reg'.b|
            && Key(reg'.b[id].indices) == Key(members)
            && reg'.b == if Key(members) in reg.index then reg.b else reg.b + [Booth(|reg.b|, members)]
  {
  }

  function EnterAll(lists: seq<seq<ServerId>>): (Registry, seq<nat>)
  {
    if lists == [] then (EMPTY_REGISTRY, [])
    else
      var (reg, ids) := EnterAll(lists[..|lists| - 1]);
      var (reg', id) := Enter(reg, lists[|lists| - 1]);
      (reg', ids + [id])
  }

  function SortAll(calls: seq<seq<ServerId>>): seq<seq<ServerId>>
  {
    seq(|calls|, i requires 0 <= i < |calls| => SortInts(calls[i]))
  }

  /** The registry and the booth IDs handed out by a sequence of calls. */
  function LookupAll(calls: seq<seq<ServerId>>): (Registry, seq<nat>)
  {
    EnterAll(SortAll(calls))
  }

  ghost predicate KeyInjectiveOn(lists: seq<seq<ServerId>>)
  {
    forall i, j :: 0 <= i < |lists| && 0 <= j < |lists| && Key(lists[i]) == Key(lists[j]) ==> lists[i] == lists[j]
  }

  /** The booth with ID `ids[j]` has the key of the list asked for by call j. */
  ghost predicate AnswersByKey(reg: Registry, lists: seq<seq<ServerId>>, ids: seq<nat>)
  {
    |ids| == |lists|
    && forall j :: 0 <= j < |lists| ==> ids[j] < |reg.b| && Key(reg.b[ids[j]].indices) == Key(lists[j])
  }

  ghost predicate OnlyAsked(b: seq<Booth>, lists: seq<seq<ServerId>>)
  {
    forall i :: 0 <= i < |b| ==> b[i].indices in lists
  }

  lemma AnswersGrow(reg: Registry, reg': Registry, lists: seq<seq<ServerId>>, ids: seq<nat>, members: seq<ServerId>,
                    id: nat)
    requires AnswersByKey(reg, lists, ids) && reg.b <= reg'.b
    requires id < |reg'.b| && Key(reg'.b[id].indices) == Key(members)
    ensures AnswersByKey(reg', lists + [members], ids + [id])
  {
    forall j | 0 <= j < |lists| ensures ids[j] < |reg'.b| && Key(reg'.b[ids[j]].indices) == Key(lists[j]) {
      assert reg'.b[ids[j]] == reg.b[ids[j]];
    }
  }

  lemma EnterByKey(reg: Registry, lists: seq<seq<ServerId>>, ids: seq<nat>, members: seq<ServerId>)
    requires reg.Valid() && AnswersByKey(reg, lists, ids)
    ensures var (reg', id) := Enter(reg, members); reg'.Valid() && AnswersByKey(reg', lists + [members], ids + [id])
  {
    var (reg', id) := Enter(reg, members);
    EnterStable(reg, members);
    AnswersGrow(reg, reg', lists, ids, members, id);
  }

  lemma {:induction false} EnterAllByKey(lists: seq<seq<ServerId>>)
    ensures EnterAll(lists).0.Valid() && AnswersByKey(EnterAll(lists).0, lists, EnterAll(lists).1)
  {
    if lists != [] {
      var n := |lists| - 1;
      EnterAllByKey(lists[..n]);
      EnterByKey(EnterAll(lists[..n]).0, lists[..n], EnterAll(lists[..n]).1, lists[n]);
      assert lists == lists[..n] + [lists[n]];
    }
  }

  lemma EnterOnlyAsked(reg: Registry, lists: seq<seq<ServerId>>, members: seq<ServerId>)
    requires OnlyAsked(reg.b, lists)
    ensures OnlyAsked(Enter(reg, members).0.b, lists + [members])
  {
    var b' := Enter(reg, members).0.b;
    forall i | 0 <= i < |b'| ensures b'[i].indices in lists + [members] {
      assert i < |reg.b| ==> b'[i] == reg.b[i] && reg.b[i].indices in lists;
    }
  }

  lemma {:induction false} EnterAllOnlyAsked(lists: seq<seq<ServerId>>)
    ensures OnlyAsked(EnterAll(lists).0.b, lists)
  {
    if lists != [] {
      var n := |lists| - 1;
      EnterAllOnlyAsked(lists[..n]);
      EnterOnlyAsked(EnterAll(lists[..n]).0, lists[..n], lists[n]);
      assert lists[..n] + [lists[n]] == lists;
    }
  }

  /** Each call is handed a booth of exactly the members it asked for. */
  ghost predicate Correct(reg: Registry, lists: seq<seq<ServerId>>, ids: seq<nat>)
  {
    |ids| == |lists| && forall j :: 0 <= j < |lists| ==> ids[j] < |reg.b| && reg.b[ids[j]].indices == lists[j]
  }

  /**
   * Every call is given a booth of exactly the members it asked for if and only if no two calls ask
   * for different member lists with the same key.
   */
  lemma LookupCorrectExactly(calls: seq<seq<ServerId>>)
    ensures var (reg, ids) := LookupAll(calls);
            reg.Valid() && (Correct(reg, SortAll(calls), ids) <==> KeyInjectiveOn(SortAll(calls)))
  {
    var lists := SortAll(calls);
    var (reg, ids) := EnterAll(lists);
    EnterAllByKey(lists);
    EnterAllOnlyAsked(lists);
    if KeyInjectiveOn(lists) {
      forall j | 0 <= j < |lists| ensures reg.b[ids[j]].indices == lists[j] {
        assert reg.b[ids[j]].indices in lists;
      }
    }
    if Correct(reg, lists, ids) {
      forall i, j | 0 <= i < |lists| && 0 <= j < |lists| && Key(lists[i]) == Key(lists[j])
        ensures lists[i] == lists[j] {
        assert reg.index[Key(reg.b[ids[i]].indices)] == ids[i] && reg.index[Key(reg.b[ids[j]].indices)] == ids[j];
      }
    }
  }

  /** The reference: a registry without an index, searched from the front for the member list. */
  function Find(b: seq<Booth>, members: seq<ServerId>, i: nat): Option<nat>
    requires i <= |b|
    decreases |b| - i
  {
    if i == |b| then None else if b[i].indices == members then Some(i) else Find(b, members, i + 1)
  }

  function ScanAll(lists: seq<seq<ServerId>>): (seq<Booth>, seq<nat>)
  {
    if lists == [] then ([], [])
    else
      var (b, ids) := ScanAll(lists[..|lists| - 1]);
      var members := lists[|lists| - 1];
      match Find(b, members, 0)
      case Some(id) => (b, ids + [id])
      case None => (b + [Booth(|b|, members)], ids + [|b|])
  }

  lemma {:induction false} FindFirst(b: seq<Booth>, members: seq<ServerId>, i: nat)
    requires i <= |b|
    ensures match Find(b, members, i)
            case Some(k) => i <= k < |b| && b[k].indices == members
            case None => forall k :: i <= k < |b| ==> b[k].indices != members
    decreases |b| - i
  {
    if i < |b| && b[i].indices != members {
      FindFirst(b, members, i + 1);
    }
  }

  /** Where keys are injective, the index finds a member list exactly when the scan does, and at the same place. */
  lemma IndexFindsLikeScan(reg: Registry, members: seq<ServerId>)
    requires reg.Valid()
    requires forall i :: 0 <= i < |reg.b| && Key(reg.b[i].indices) == Key(members) ==> reg.b[i].indices == members
    ensures Find(reg.b, members, 0) == if Key(members) in reg.index then Some(reg.index[Key(members)]) else None
  {
    FindFirst(reg.b, members, 0);
    if Key(members) in reg.index {
      var k := reg.index[Key(members)];
      assert reg.b[k].indices == members;
    }
  }

  /** When keys are injective on the calls, the indexed registry and the linear scan are indistinguishable. */
  lemma LookupAgreesWithScan(calls: seq<seq<ServerId>>)
    requires KeyInjectiveOn(SortAll(calls))
    ensures LookupAll(calls).0.b == ScanAll(SortAll(calls)).0 && LookupAll(calls).1 == ScanAll(SortAll(calls)).1
  {
    EnterAgreesWithScan(SortAll(calls));
  }

  lemma {:induction false} EnterAgreesWithScan(lists: seq<seq<ServerId>>)
    requires KeyInjectiveOn(lists)
    ensures EnterAll(lists).0.b == ScanAll(lists).0 && EnterAll(lists).1 == ScanAll(lists).1
  {
    if lists != [] {
      var n := |lists| - 1;
      var init := lists[..n];
      EnterAgreesWithScan(init);
      EnterAllByKey(init);
      EnterAllOnlyAsked(init);
      var reg := EnterAll(init).0;
      forall i | 0 <= i < |reg.b| && Key(reg.b[i].indices) == Key(lists[n]) ensures reg.b[i].indices == lists[n] {
        assert reg.b[i].indices in init;
      }
      IndexFindsLikeScan(reg, lists[n]);
    }
  }

  /** All orderings of one member list name the same booth. */
  lemma LookupIgnoresOrder(reg: Registry, p: seq<ServerId>, q: seq<ServerId>)
    requires multiset(p) == multiset(q)
    ensures Lookup(reg, p) == Lookup(reg, q)
  {
    SortedPermutationUnique(SortInts(p), SortInts(q));
  }

  /** Two lists with one key share the booth of the first. */
  lemma EnterTwice(p: seq<ServerId>, q: seq<ServerId>)
    requires Key(p) == Key(q)
    ensures EnterAll([p, q]).1 == [0, 0] && EnterAll([p, q]).0.b == [Booth(0, p)]
  {
    var lists, first, none := [p, q], [p], [p][..0];
    assert lists[..1] == first && first[..0] == none;
    assert EnterAll(none) == (EMPTY_REGISTRY, []);
    var reg1 := Enter(EMPTY_REGISTRY, p).0;
    assert reg1 == Registry([Booth(0, p)], map[Key(p) := 0]);
    var ids := EnterAll(none).1;
    assert ids + [0] == [0] && first[|first| - 1] == p;
    assert EnterAll(first) == (reg1, ids + [0]);
    assert Enter(reg1, q) == (reg1, 0);
    assert EnterAll(lists) == (reg1, [0] + [0]);
  }

  /** The first participant list that is long enough (mmu.go:281-300); the others are waited out. */
  function FirstUsable(attempts: seq<seq<ServerId>>): Option<seq<ServerId>>
  {
    if attempts == [] then None
    else if |attempts[0]| <= 2 then FirstUsable(attempts[1..])
    else Some(attempts[0])
  }

  /** It is the first list of three vehicles or more, if there is one. */
  lemma {:induction false} FirstUsableExactly(attempts: seq<seq<ServerId>>)
    ensures FirstUsable(attempts) == None <==> forall i :: 0 <= i < |attempts| ==> |attempts[i]| < 3
    ensures forall i ::
              0 <= i < |attempts| && |attempts[i]| >= 3 && (forall j :: 0 <= j < i ==> |attempts[j]| < 3) ==>
                FirstUsable(attempts) == Some(attempts[i])
  {
    if attempts != [] {
      var rest := attempts[1..];
      FirstUsableExactly(rest);
      assert forall i :: 0 < i < |attempts| ==> attempts[i] == rest[i - 1];
    }
  }

  /** A booth is asked for with the proposer in front and at least three vehicles behind it. */
  lemma {:induction false} UsablePattern(self: ServerId, attempts: seq<seq<ServerId>>)
    requires FirstUsable(attempts).Some?
    ensures var sorted := SortInts([self] + FirstUsable(attempts).value);
            |sorted| >= 4 && self in sorted
            && forall v :: v in sorted <==> v == self || v in FirstUsable(attempts).value
  {
    if |attempts[0]| <= 2 {
      UsablePattern(self, attempts[1..]);
    } else {
      var pattern := [self] + attempts[0];
      assert |multiset(SortInts(pattern))| == |multiset(pattern)|;
      assert forall v :: v in SortInts(pattern) <==> v in multiset(SortInts(pattern));
      assert forall v :: v in pattern <==> v in multiset(pattern);
      assert pattern[0] == self;
    }
  }

  lemma SameKeyBehind(x: ServerId, a: seq<ServerId>, b: seq<ServerId>)
    requires Key(a) == Key(b)
    ensures Key([x] + a) == Key([x] + b)
  {
    assert ([x] + a)[1..] == a && ([x] + b)[1..] == b;
  }

  /** Two sorted lists with one key are given one booth, that of the first. */
  lemma SortedShareBooth(p: seq<ServerId>, q: seq<ServerId>)
    requires Sorted(p) && Sorted(q) && Key(p) == Key(q)
    ensures LookupAll([p, q]).1 == [0, 0] && LookupAll([p, q]).0.b == [Booth(0, p)]
  {
    SortedPermutationUnique(SortInts(p), p);
    SortedPermutationUnique(SortInts(q), q);
    assert SortAll([p, q]) == [p, q];
    EnterTwice(p, q);
  }

  /** The IDs 34 and 3, 4 read alike. */
  lemma LastDigitsRunTogether()
    ensures Key([34]) == Key([3, 4])
  {
    assert Decimal(34) == Decimal(3) + [Digit(4)];
    assert [3, 4][1..] == [4] && Key([4]) == Decimal(4) == [Digit(4)];
  }

  lemma VehiclesRunTogether()
    ensures Key([0, 1, 2, 34]) == Key([0, 1, 2, 3, 4])
  {
    LastDigitsRunTogether();
    SameKeyBehind(2, [34], [3, 4]);
    SameKeyBehind(1, [2] + [34], [2] + [3, 4]);
    SameKeyBehind(0, [1] + ([2] + [34]), [1] + ([2] + [3, 4]));
    assert [0] + ([1] + ([2] + [34])) == [0, 1, 2, 34];
    assert [0] + ([1] + ([2] + [3, 4])) == [0, 1, 2, 3, 4];
  }

  /**
   * Proposer 0 that meets first the vehicles 1, 2, 34 and later 1, 2, 3, 4 takes them for one booth, however
   * many short participant lists it waits out in between.
   */
  lemma LookupConfusesBooths(first: seq<seq<ServerId>>, later: seq<seq<ServerId>>)
    requires FirstUsable(first) == Some([1, 2, 34]) && FirstUsable(later) == Some([1, 2, 3, 4])
    ensures var (reg, ids) := LookupAll([[0] + FirstUsable(first).value, [0] + FirstUsable(later).value]);
            ids == [0, 0] && reg.b == [Booth(0, [0, 1, 2, 34])]
  {
    VehiclesRunTogether();
    assert [0] + [1, 2, 34] == [0, 1, 2, 34] && [0] + [1, 2, 3, 4] == [0, 1, 2, 3, 4];
    SortedShareBooth([0, 1, 2, 34], [0, 1, 2, 3, 4]);
  }

  class BoothManager {
    var b: seq<Booth>
    var index: map<string, nat>

    function View(): Registry
      reads this
    {
      Registry(b, index)
    }

    constructor ()
      ensures View() == EMPTY_REGISTRY
    {
      b, index := [], map[];
    }

    method CheckExactMatch(pattern: seq<ServerId>) returns (boothId: nat)
      requires View().Valid()
      modifies this
      ensures View().Valid() && (View(), boothId) == Lookup(old(View()), pattern)
      ensures old(b) <= b && boothId < |b| && b[boothId].id == boothId
              && Key(b[boothId].indices) == Key(SortInts(pattern))
    {
      var sorted := SortInts(pattern);
      var key := Key(sorted);
      EnterStable(View(), sorted);
      if key in index {
        boothId := index[key];
      } else {
        boothId := |b|;
        b := b + [Booth(|b|, sorted)];
        index := index[key := boothId];
      }
    }

    /** Nothing is returned while every participant list met so far is too short. */
    method GetBoothID(self: ServerId, attempts: seq<seq<ServerId>>) returns (boothId: Option<nat>)
      requires View().Valid()
      modifies this
      ensures View().Valid() && old(b) <= b
      ensures match FirstUsable(attempts)
              case None => boothId == None && View() == old(View())
              case Some(p) => boothId.Some? && boothId.value < |b|
                              && (View(), boothId.value) == Lookup(old(View()), [self] + p)
    {
      var i := 0;
      while i < |attempts|
        invariant 0 <= i <= |attempts| && View() == old(View())
        invariant FirstUsable(attempts) == FirstUsable(attempts[i..])
      {
        var pattern := attempts[i];
        assert attempts[i..][0] == pattern && attempts[i..][1..] == attempts[i + 1..];
        i := i + 1;
        if |pattern| <= 2 {
          continue;
        }
        var id := CheckExactMatch([self] + pattern);
        return Some(id);
      }
      boothId := None;
    }
  }
}
