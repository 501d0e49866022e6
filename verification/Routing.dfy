/**
 * One-hop relay routing between proposers, and the way a validator's reply takes back
 * (mmu.go:458-675, connsprop.go:202-283, connsprop.go:353-418, connsprop.go:439-499, handlers.go:89-116).
 */
module Routing {
  import opened Types
  import opened Reachability

  /** Whether a detour is needed and the next node; the code's node -1 is None. */
  datatype Path = Path(needDetour: bool, next: Option<ServerId>)

  /** What is put on a connection: the message, or the message wrapped for another proposer. */
  datatype Packet<M> = Plain(msg: M) | Wrapped(msg: M, sender: ServerId, recipient: ServerId)

  datatype Send<M> = Send(to: ServerId, packet: Packet<M>)

  /** checkComPathToValidator (mmu.go:458-481) on proposer `self`. */
  function PathToValidator(t: Tables, self: ServerId, v: ServerId, key: TimeKey, bypass: bool): Path
  {
    var proposers := Row(t.valToPro, v, key);
    if v in Row(t.proToVal, self, key) then Path(false, Some(v))
    else if !bypass || |proposers| == 0 then Path(true, None)
    else Path(true, Some(proposers[0]))
  }

  /** checkComPathToProposer (mmu.go:483-508) on validator `self`. */
  function PathToProposer(t: Tables, self: ServerId, p: ServerId, key: TimeKey, bypass: bool): Path
  {
    var proposers := Row(t.valToPro, self, key);
    if p in proposers then Path(false, Some(p))
    else if !bypass || |proposers| == 0 then Path(true, None)
    else Path(true, Some(proposers[0]))
  }

  // ----- Sending -----

  function SendTo<M>(path: Path, sender: ServerId, recipient: ServerId, msg: M): seq<Send<M>>
  {
    if path.next.None? then []
    else [Send(path.next.value, if path.needDetour then Wrapped(msg, sender, recipient) else Plain(msg))]
  }

  /** One send to each booth member but the sender, in member order, of the message chosen for it. */
  function EachSends<M>(t: Tables, self: ServerId, members: seq<ServerId>, choose: ServerId -> M, key: TimeKey,
                        bypass: bool): seq<Send<M>>
  {
    if members == [] then []
    else
      var v := members[|members| - 1];
      EachSends(t, self, members[..|members| - 1], choose, key, bypass)
      + if v == self then [] else SendTo(PathToValidator(t, self, v, key, bypass), self, v, choose(v))
  }

  /** broadcastToBoothWithComCheck (mmu.go:511-581). */
  method Broadcast<M>(t: Tables, self: ServerId, members: seq<ServerId>, msg: M, key: TimeKey, bypass: bool)
    returns (sends: seq<Send<M>>)
    ensures sends == EachSends(t, self, members, _ => msg, key, bypass)
  {
    sends := [];
    ghost var choose := (_: ServerId) => msg;
    for n := 0 to |members|
      invariant sends == EachSends(t, self, members[..n], choose, key, bypass)
    {
      var i := members[n];
      assert members[..n + 1][..n] == members[..n];
      if self == i {
        continue;
      }
      var path := PathToValidator(t, self, i, key, bypass);
      var message := if path.needDetour then Wrapped(msg, self, i) else Plain(msg);
      if path.next.None? {
        continue;
      }
      sends := sends + [Send(path.next.value, message)];
    }
    assert members[..|members|] == members;
  }

  function Copies<M>(s: seq<Send<M>>, n: nat): seq<Send<M>>
  {
    if n == 0 then [] else Copies(s, n - 1) + s
  }

  function Occurrences(xs: seq<ServerId>, x: ServerId): nat
  {
    if xs == [] then 0 else Occurrences(xs[..|xs| - 1], x) + if xs[|xs| - 1] == x then 1 else 0
  }

  /** A member gets the new message once per occurrence among the new members, any other the regular one. */
  function NewBoothSends<M>(t: Tables, self: ServerId, members: seq<ServerId>, newMembers: seq<ServerId>,
                            regular: M, newMsg: M, key: TimeKey, bypass: bool): seq<Send<M>>
  {
    if members == [] then []
    else
      var v := members[|members| - 1];
      var path := PathToValidator(t, self, v, key, bypass);
      var n := Occurrences(newMembers, v);
      NewBoothSends(t, self, members[..|members| - 1], newMembers, regular, newMsg, key, bypass)
      + if v == self then []
        else if n > 0 then Copies(SendTo(path, self, v, newMsg), n)
        else SendTo(path, self, v, regular)
  }

  /** broadcastToNewBoothWithComCheck (mmu.go:583-675). */
  method BroadcastToNewBooth<M>(t: Tables, self: ServerId, members: seq<ServerId>, newMembers: seq<ServerId>,
                                regular: M, newMsg: M, key: TimeKey, bypass: bool) returns (sends: seq<Send<M>>)
    ensures sends == NewBoothSends(t, self, members, newMembers, regular, newMsg, key, bypass)
  {
    sends := [];
    for n := 0 to |members|
      invariant sends == NewBoothSends(t, self, members[..n], newMembers, regular, newMsg, key, bypass)
    {
      var i := members[n];
      assert members[..n + 1][..n] == members[..n];
      if self == i {
        continue;
      }
      var path := PathToValidator(t, self, i, key, bypass);
      if path.next.None? {
        CopiesOfNothing<M>(Occurrences(newMembers, i));
        continue;
      }
      var toNew, newMemberFlag := SendToNew(path, self, i, newMembers, newMsg);
      sends := sends + toNew;
      if newMemberFlag {
        continue;
      }
      var message := if path.needDetour then Wrapped(regular, self, i) else Plain(regular);
      sends := sends + [Send(path.next.value, message)];
    }
    assert members[..|members|] == members;
  }

  /** The inner loop over the new members (mmu.go:627-649). */
  method SendToNew<M>(path: Path, self: ServerId, i: ServerId, newMembers: seq<ServerId>, newMsg: M)
    returns (sends: seq<Send<M>>, newMemberFlag: bool)
    requires path.next.Some?
    ensures newMemberFlag <==> Occurrences(newMembers, i) > 0
    ensures sends == Copies(SendTo(path, self, i, newMsg), Occurrences(newMembers, i))
  {
    sends, newMemberFlag := [], false;
    for j := 0 to |newMembers|
      invariant newMemberFlag <==> Occurrences(newMembers[..j], i) > 0
      invariant sends == Copies(SendTo(path, self, i, newMsg), Occurrences(newMembers[..j], i))
    {
      assert newMembers[..j + 1][..j] == newMembers[..j];
      if newMembers[j] == i {
        newMemberFlag := true;
        var message := if path.needDetour then Wrapped(newMsg, self, i) else Plain(newMsg);
        sends := sends + [Send(path.next.value, message)];
      }
    }
    assert newMembers[..|newMembers|] == newMembers;
  }

  lemma {:induction false} CopiesOfNothing<M>(n: nat)
    ensures Copies<M>([], n) == []
  {
    if n > 0 {
      CopiesOfNothing<M>(n - 1);
    }
  }

  /** relayBetweenProposerMessage (connsprop.go:439-499) on proposer `self`: the decision is taken again. */
  function RelaySends<M>(t: Tables, self: ServerId, packet: Packet<M>, key: TimeKey, bypass: bool): seq<Send<M>>
    requires packet.Wrapped?
  {
    var path := PathToValidator(t, self, packet.recipient, key, bypass);
    if path.next.None? then []
    else [Send(path.next.value, if path.needDetour then packet else Plain(packet.msg))]
  }

  // ----- What becomes of a send -----

  datatype Outcome<M> =
    | Delivered(node: ServerId, msg: M, hops: nat)
    | Dropped
    | InTransit(holder: ServerId)

  function OneMoreHop<M>(o: Outcome<M>): Outcome<M>
  {
    if o.Delivered? then o.(hops := o.hops + 1) else o
  }

  /** The journey of a send whose successive relays take place at the times `keys`. */
  function Follow<M>(t: Tables, s: Send<M>, keys: seq<TimeKey>, bypass: bool): Outcome<M>
    decreases |keys|
  {
    if s.packet.Plain? then Delivered(s.to, s.packet.msg, 0)
    else if keys == [] then InTransit(s.to)
    else
      var next := RelaySends(t, s.to, s.packet, keys[0], bypass);
      if next == [] then Dropped else OneMoreHop(Follow(t, next[0], keys[1..], bypass))
  }

  ghost predicate ReachedBySome(proposers: seq<ServerId>, data: CommData, v: ServerId, key: TimeKey)
  {
    exists p :: p in proposers && v in Cell(data, p, key)
  }

  lemma ReachedBySomeRow(t: Tables, proposers: seq<ServerId>, validators: seq<ServerId>, data: CommData, v: ServerId,
                         key: TimeKey)
    requires Generated(t, proposers, validators, data) && v in validators
    ensures ReachedBySome(proposers, data, v, key) <==> Row(t.valToPro, v, key) != []
    ensures Row(t.valToPro, v, key) != [] ==>
              var q := Row(t.valToPro, v, key)[0]; q in proposers && v in Row(t.proToVal, q, key)
  {
    var row := Row(t.valToPro, v, key);
    if row != [] {
      TablesSymmetric(t, proposers, validators, data, row[0], v, key);
      assert v in Cell(data, row[0], key);
    }
    if ReachedBySome(proposers, data, v, key) {
      var p :| p in proposers && v in Cell(data, p, key);
      assert v in Row(t.proToVal, p, key);
      TablesSymmetric(t, proposers, validators, data, p, v, key);
    }
  }

  /**
   * With one time key throughout and bypassing allowed, a message for `v` is delivered to v unwrapped,
   * directly or by one relay, and the relay is not the sender; it is not sent at all exactly when no
   * proposer reaches v. Without bypassing only the direct case is left.
   */
  lemma SingleDelivery<M>(t: Tables, proposers: seq<ServerId>, validators: seq<ServerId>, data: CommData,
                          self: ServerId, v: ServerId, msg: M, key: TimeKey, later: seq<TimeKey>, bypass: bool)
    requires Generated(t, proposers, validators, data) && self in proposers && v in validators
    ensures var sends := SendTo(PathToValidator(t, self, v, key, bypass), self, v, msg);
            var direct := v in Cell(data, self, key);
            if direct || (bypass && ReachedBySome(proposers, data, v, key))
            then && |sends| == 1
                 && Follow(t, sends[0], [key] + later, bypass) == Delivered(v, msg, if direct then 0 else 1)
                 && (!direct ==> sends[0].to in proposers && sends[0].to != self)
            else sends == []
  {
    ReachedBySomeRow(t, proposers, validators, data, v, key);
    assert v in Cell(data, self, key) <==> v in Row(t.proToVal, self, key);
    var sends := SendTo(PathToValidator(t, self, v, key, bypass), self, v, msg);
    if sends != [] && sends[0].packet.Wrapped? {
      var next := RelaySends(t, sends[0].to, sends[0].packet, key, bypass);
      assert next == [Send(v, Plain(msg))];
      assert ([key] + later)[0] == key && ([key] + later)[1..] == later;
    }
  }

  function Deliveries<M(==)>(t: Tables, sends: seq<Send<M>>, key: TimeKey, bypass: bool, v: ServerId, msg: M): nat
  {
    if sends == [] then 0
    else
      var o := Follow(t, sends[|sends| - 1], [key], bypass);
      Deliveries(t, sends[..|sends| - 1], key, bypass, v, msg)
      + if o.Delivered? && o.node == v && o.msg == msg then 1 else 0
  }

  lemma {:induction false} DeliveriesAppend<M>(t: Tables, a: seq<Send<M>>, b: seq<Send<M>>, key: TimeKey,
                                               bypass: bool, v: ServerId, msg: M)
    ensures Deliveries(t, a + b, key, bypass, v, msg) == Deliveries(t, a, key, bypass, v, msg) + Deliveries(t, b, key,
            bypass, v, msg)
  {
    if b == [] {
      assert a + b == a;
    } else {
      assert (a + b)[..|a + b| - 1] == a + b[..|b| - 1];
      DeliveriesAppend(t, a, b[..|b| - 1], key, bypass, v, msg);
    }
  }

  /** A wrapped message never ends anywhere but at its recipient. */
  lemma {:induction false} DeliveredToRecipient<M>(t: Tables, s: Send<M>, keys: seq<TimeKey>, bypass: bool)
    requires s.packet.Wrapped? && Follow(t, s, keys, bypass).Delivered?
    ensures Follow(t, s, keys, bypass).node == s.packet.recipient && Follow(t, s, keys, bypass).msg == s.packet.msg
    decreases |keys|
  {
    var next := RelaySends(t, s.to, s.packet, keys[0], bypass);
    if next[0].packet.Wrapped? {
      DeliveredToRecipient(t, next[0], keys[1..], bypass);
    }
  }

  ghost predicate Reachable(proposers: seq<ServerId>, data: CommData, self: ServerId, v: ServerId, key: TimeKey,
                            bypass: bool)
  {
    v in Cell(data, self, key) || (bypass && ReachedBySome(proposers, data, v, key))
  }

  /** The deliveries of `msg` to `v` that come of sending `sent` to one member. */
  lemma MemberDeliveries<M>(t: Tables, proposers: seq<ServerId>, validators: seq<ServerId>, data: CommData,
                            self: ServerId, u: ServerId, sent: M, v: ServerId, msg: M, key: TimeKey, bypass: bool)
    requires Generated(t, proposers, validators, data) && self in proposers && v in validators
    ensures Deliveries(t, SendTo(PathToValidator(t, self, u, key, bypass), self, u, sent), key, bypass, v, msg)
         == if u == v && sent == msg && Reachable(proposers, data, self, v, key, bypass) then 1 else 0
  {
    var sends := SendTo(PathToValidator(t, self, u, key, bypass), self, u, sent);
    if u == v {
      SingleDelivery(t, proposers, validators, data, self, v, sent, key, [], bypass);
      assert [key] + [] == [key];
    } else if sends != [] && sends[0].packet.Wrapped? && Follow(t, sends[0], [key], bypass).Delivered? {
      DeliveredToRecipient(t, sends[0], [key], bypass);
    }
    if sends != [] {
      assert sends[..|sends| - 1] == [];
    }
  }

  /**
   * Of one broadcast with one time key, a validator receives the message chosen for it exactly as many
   * times as the booth lists it, provided the sender or, with bypassing, some proposer reaches it;
   * otherwise it receives nothing, and it never receives a message chosen for another member.
   */
  lemma {:induction false} BroadcastDelivers<M>(t: Tables, proposers: seq<ServerId>, validators: seq<ServerId>,
                                                data: CommData, self: ServerId,
                                                members: seq<ServerId>, choose: ServerId -> M, v: ServerId, msg: M,
                                                    key: TimeKey, bypass: bool)
    requires Generated(t, proposers, validators, data) && self in proposers && v in validators && v != self
    ensures Deliveries(t, EachSends(t, self, members, choose, key, bypass), key, bypass, v, msg)
         == if msg == choose(v) && Reachable(proposers, data, self, v, key, bypass) then Occurrences(members, v) else 0
  {
    if members != [] {
      var n := |members| - 1;
      var u := members[n];
      BroadcastDelivers(t, proposers, validators, data, self, members[..n], choose, v, msg, key, bypass);
      MemberDeliveries(t, proposers, validators, data, self, u, choose(u), v, msg, key, bypass);
      DeliveriesAppend(t, EachSends(t, self, members[..n], choose, key, bypass),
                       if u == self then [] else SendTo(PathToValidator(t, self, u, key, bypass), self, u, choose(u)),
                           key, bypass, v, msg);
    }
  }

  lemma {:induction false} OccursOnce(xs: seq<ServerId>, x: ServerId)
    requires Distinct(xs)
    ensures Occurrences(xs, x) == if x in xs then 1 else 0
  {
    if xs != [] {
      var n := |xs| - 1;
      OccursOnce(xs[..n], x);
      assert x in xs <==> x in xs[..n] || x == xs[n];
    }
  }

  /**
   * With a duplicate-free list of new members, every booth member other than the sender is sent what
   * a plain broadcast would send it: one message, the new one if and only if it is a new member.
   */
  lemma {:induction false} NewBoothSendsOnce<M>(t: Tables, self: ServerId, members: seq<ServerId>,
                                                newMembers: seq<ServerId>,
                                                regular: M, newMsg: M, key: TimeKey, bypass: bool)
    requires Distinct(newMembers)
    ensures NewBoothSends(t, self, members, newMembers, regular, newMsg, key, bypass)
         == EachSends(t, self, members, v => if v in newMembers then newMsg else regular, key, bypass)
  {
    if members != [] {
      var n := |members| - 1;
      var v := members[n];
      NewBoothSendsOnce(t, self, members[..n], newMembers, regular, newMsg, key, bypass);
      OccursOnce(newMembers, v);
      var s := SendTo(PathToValidator(t, self, v, key, bypass), self, v, newMsg);
      assert Copies(s, 1) == Copies(s, 0) + s == s;
    }
  }

  // ----- Changing time keys -----

  /** The holder of a wrapped message was chosen as the first proposer reaching the recipient at `key`. */
  ghost predicate ChosenAt<M>(t: Tables, s: Send<M>, key: TimeKey)
  {
    s.packet.Wrapped? ==>
        Row(t.valToPro, s.packet.recipient, key) != [] && s.to == Row(t.valToPro, s.packet.recipient, key)[0]
  }

  /**
   * However the time key changes on the way, the journey is over, within as many relays, once two
   * successive decisions are taken under the same key.
   */
  lemma {:induction false} SettlesOnRepeatedKey<M>(t: Tables, proposers: seq<ServerId>, validators: seq<ServerId>,
                                                   data: CommData,
                                                   s: Send<M>, key: TimeKey, keys: seq<TimeKey>, i: nat, bypass: bool)
    requires Generated(t, proposers, validators, data) && ChosenAt(t, s, key)
    requires s.packet.Wrapped? ==> s.packet.recipient in validators
    requires i < |keys| && keys[i] == (if i == 0 then key else keys[i - 1])
    ensures var o := Follow(t, s, keys, bypass); !o.InTransit? && (o.Delivered? ==> o.hops <= i + 1)
    decreases |keys|
  {
    if s.packet.Wrapped? {
      var v := s.packet.recipient;
      ReachedBySomeRow(t, proposers, validators, data, v, key);
      var next := RelaySends(t, s.to, s.packet, keys[0], bypass);
      if i == 0 {
        assert next == [Send(v, Plain(s.packet.msg))];
      } else if next != [] {
        assert keys[1..][i - 1] == keys[i] && (i > 1 ==> keys[1..][i - 2] == keys[i - 1]);
        SettlesOnRepeatedKey(t, proposers, validators, data, next[0], keys[0], keys[1..], i - 1, bypass);
      }
    }
  }

  /**
   * After a detour chosen under one key, the relay that decides under another hands the message back to its
   * sender if and only if the relay does not reach the recipient then and the sender is first among those who do.
   */
  lemma DetourComesBackExactly<M>(t: Tables, proposers: seq<ServerId>, validators: seq<ServerId>, data: CommData,
                                  self: ServerId, v: ServerId, msg: M, key: TimeKey, s: Send<M>, later: TimeKey)
    requires Generated(t, proposers, validators, data) && self in proposers && v in validators
    requires SendTo(PathToValidator(t, self, v, key, true), self, v, msg) == [s] && s.packet.Wrapped?
    ensures s.to != self
    ensures RelaySends(t, s.to, s.packet, later, true) == [Send(self, Wrapped(msg, self, v))]
       <==> v !in Cell(data, s.to, later) && Reaching(proposers, data, v, later) != []
            && Reaching(proposers, data, v, later)[0] == self
  {
    SingleDelivery(t, proposers, validators, data, self, v, msg, key, [], true);
    assert v in Cell(data, s.to, later) <==> v in Row(t.proToVal, s.to, later);
    RowIsReaching(t, proposers, validators, data, v, later);
  }

  lemma {:induction false} NobodyReaches(proposers: seq<ServerId>, data: CommData, v: ServerId, key: TimeKey)
    requires key !in data
    ensures Reaching(proposers, data, v, key) == []
  {
    if proposers != [] {
      NobodyReaches(proposers[..|proposers| - 1], data, v, key);
    }
  }

  lemma RowIsReaching(t: Tables, proposers: seq<ServerId>, validators: seq<ServerId>, data: CommData, v: ServerId,
                      key: TimeKey)
    requires Generated(t, proposers, validators, data) && v in validators
    ensures Row(t.valToPro, v, key) == Reaching(proposers, data, v, key)
  {
    if key !in data {
      NobodyReaches(proposers, data, v, key);
    }
  }

  /**
   * Who holds the message when the j-th relay decides: each relay names the first proposer that reaches v.
   * Where there is none the journey is over, and the name is of no account.
   */
  function HolderAt(proposers: seq<ServerId>, data: CommData, start: ServerId, v: ServerId, keys: seq<TimeKey>,
                    j: nat): ServerId
    requires j <= |keys|
  {
    if j == 0 then start
    else if Reaching(proposers, data, v, keys[j - 1]) == [] then v
    else Reaching(proposers, data, v, keys[j - 1])[0]
  }

  /** The j-th relay does not reach v, but some proposer does. */
  ghost predicate PassesOn(proposers: seq<ServerId>, data: CommData, start: ServerId, v: ServerId, keys: seq<TimeKey>,
                           bypass: bool, j: nat)
  {
    && j < |keys| && bypass && v !in Cell(data, HolderAt(proposers, data, start, v, keys, j), keys[j])
    && Reaching(proposers, data, v, keys[j]) != []
  }

  ghost predicate PassedOnUntil(proposers: seq<ServerId>, data: CommData, start: ServerId, v: ServerId,
                                keys: seq<TimeKey>, bypass: bool, i: nat)
  {
    i <= |keys| && forall j: nat :: j < i ==> PassesOn(proposers, data, start, v, keys, bypass, j)
  }

  /** The i-th relay is the first not to pass the message on, and it reaches v. */
  ghost predicate ArrivesAt(proposers: seq<ServerId>, data: CommData, start: ServerId, v: ServerId,
                            keys: seq<TimeKey>, bypass: bool, i: nat)
  {
    && i < |keys| && PassedOnUntil(proposers, data, start, v, keys, bypass, i)
    && v in Cell(data, HolderAt(proposers, data, start, v, keys, i), keys[i])
  }

  /** The i-th relay is the first not to pass the message on, and it does not reach v. */
  ghost predicate LostAt(proposers: seq<ServerId>, data: CommData, start: ServerId, v: ServerId, keys: seq<TimeKey>,
                         bypass: bool, i: nat)
  {
    && i < |keys| && PassedOnUntil(proposers, data, start, v, keys, bypass, i)
    && v !in Cell(data, HolderAt(proposers, data, start, v, keys, i), keys[i])
    && (!bypass || Reaching(proposers, data, v, keys[i]) == [])
  }

  /** The relays after the first decide on the rest of the keys as they would on all of them. */
  lemma PassesTail(proposers: seq<ServerId>, data: CommData, start: ServerId, v: ServerId, keys: seq<TimeKey>,
                   bypass: bool, j: nat)
    requires PassesOn(proposers, data, start, v, keys, bypass, 0)
    ensures var next := Reaching(proposers, data, v, keys[0])[0];
            && (j <= |keys[1..]| ==>
                  HolderAt(proposers, data, next, v, keys[1..], j) == HolderAt(proposers, data, start, v, keys, j + 1))
            && (PassesOn(proposers, data, next, v, keys[1..], bypass, j)
                <==> PassesOn(proposers, data, start, v, keys, bypass, j + 1))
  {
    assert j < |keys[1..]| ==> keys[1..][j] == keys[j + 1];
    assert 0 < j <= |keys[1..]| ==> keys[1..][j - 1] == keys[j];
  }

  lemma UntilTail(proposers: seq<ServerId>, data: CommData, start: ServerId, v: ServerId, keys: seq<TimeKey>,
                  bypass: bool, i: nat)
    requires PassesOn(proposers, data, start, v, keys, bypass, 0)
    ensures var next := Reaching(proposers, data, v, keys[0])[0];
            PassedOnUntil(proposers, data, next, v, keys[1..], bypass, i) <==>
            PassedOnUntil(proposers, data, start, v, keys, bypass, i + 1)
  {
    var next := Reaching(proposers, data, v, keys[0])[0];
    forall j: nat
      ensures PassesOn(proposers, data, next, v, keys[1..], bypass, j)
              <==> PassesOn(proposers, data, start, v, keys, bypass, j + 1) {
      PassesTail(proposers, data, start, v, keys, bypass, j);
    }
    if PassedOnUntil(proposers, data, next, v, keys[1..], bypass, i) {
      forall j: nat | j < i + 1 ensures PassesOn(proposers, data, start, v, keys, bypass, j) {
        assert j > 0 ==> PassesOn(proposers, data, next, v, keys[1..], bypass, j - 1);
      }
    }
  }

  ghost predicate IsLost(proposers: seq<ServerId>, data: CommData, start: ServerId, v: ServerId, keys: seq<TimeKey>,
                         bypass: bool)
  {
    exists i: nat :: LostAt(proposers, data, start, v, keys, bypass, i)
  }

  ghost predicate DeliversAs<M>(o: Outcome<M>, msg: M, proposers: seq<ServerId>, data: CommData, start: ServerId,
                                v: ServerId, keys: seq<TimeKey>, bypass: bool)
  {
    forall i: nat :: o == Delivered(v, msg, i + 1) <==> ArrivesAt(proposers, data, start, v, keys, bypass, i)
  }

  /** The outcome `o` of a journey in terms of who reaches v when. */
  ghost predicate EndsAs<M>(o: Outcome<M>, msg: M, proposers: seq<ServerId>, data: CommData, start: ServerId,
                            v: ServerId, keys: seq<TimeKey>, bypass: bool)
  {
    && (o.Delivered? ==> o.hops > 0) && DeliversAs(o, msg, proposers, data, start, v, keys, bypass)
    && (o == Dropped <==> IsLost(proposers, data, start, v, keys, bypass))
    && (o.InTransit? <==> PassedOnUntil(proposers, data, start, v, keys, bypass, |keys|))
  }

  /**
   * How the journey of a wrapped message ends under any sequence of time keys: delivered by the first relay
   * that reaches the recipient, dropped by the first that meets a time at which nobody can be told to try, and
   * still under way if and only if every relay passes it on.
   */
  lemma {:induction false} JourneyExactly<M>(t: Tables, proposers: seq<ServerId>, validators: seq<ServerId>,
                                             data: CommData,
                                             s: Send<M>, keys: seq<TimeKey>, bypass: bool)
    requires Generated(t, proposers, validators, data) && s.packet.Wrapped? && s.to in proposers
             && s.packet.recipient in validators
    ensures EndsAs(Follow(t, s, keys, bypass), s.packet.msg, proposers, data, s.to, s.packet.recipient, keys, bypass)
    decreases |keys|
  {
    var v := s.packet.recipient;
    if keys != [] {
      FirstRelay(t, proposers, validators, data, s, keys[0], bypass);
      if PassesOn(proposers, data, s.to, v, keys, bypass, 0) {
        var next := Send(Reaching(proposers, data, v, keys[0])[0], s.packet);
        ReachingMember(proposers, data, v, keys[0], next.to);
        JourneyExactly(t, proposers, validators, data, next, keys[1..], bypass);
        JourneyTail(Follow(t, next, keys[1..], bypass), s.packet.msg, proposers, data, s.to, v, keys, bypass);
      } else {
        StopsAtOnce(proposers, data, s.to, v, keys, bypass);
        assert v !in Cell(data, s.to, keys[0]) ==> LostAt(proposers, data, s.to, v, keys, bypass, 0);
      }
    }
  }

  lemma FirstRelay<M>(t: Tables, proposers: seq<ServerId>, validators: seq<ServerId>, data: CommData, s: Send<M>,
                      key: TimeKey, bypass: bool)
    requires Generated(t, proposers, validators, data) && s.packet.Wrapped? && s.to in proposers
             && s.packet.recipient in validators
    ensures var v := s.packet.recipient;
            RelaySends(t, s.to, s.packet, key, bypass) ==
            if v in Cell(data, s.to, key) then [Send(v, Plain(s.packet.msg))]
            else if bypass
            && Reaching(proposers, data, v, key) != [] then [Send(Reaching(proposers, data, v, key)[0], s.packet)]
            else []
  {
    RowIsReaching(t, proposers, validators, data, s.packet.recipient, key);
    assert s.packet.recipient in Cell(data, s.to, key) <==> s.packet.recipient in Row(t.proToVal, s.to, key);
  }

  /** A first relay that does not pass the message on ends the journey. */
  lemma StopsAtOnce(proposers: seq<ServerId>, data: CommData, start: ServerId, v: ServerId, keys: seq<TimeKey>,
                    bypass: bool)
    requires keys != [] && !PassesOn(proposers, data, start, v, keys, bypass, 0)
    ensures forall i: nat :: i > 0 ==> !PassedOnUntil(proposers, data, start, v, keys, bypass, i)
    ensures PassedOnUntil(proposers, data, start, v, keys, bypass, 0)
    ensures forall i: nat ::
              ArrivesAt(proposers, data, start, v, keys, bypass, i) <==> i == 0 && v in Cell(data, start, keys[0])
    ensures forall i: nat ::
              LostAt(proposers, data, start, v, keys, bypass, i) <==> i == 0 && v !in Cell(data, start, keys[0])
  {
    forall i: nat | i > 0 ensures !PassedOnUntil(proposers, data, start, v, keys, bypass, i) {
      assert 0 < i;
    }
  }

  lemma EndsTail(proposers: seq<ServerId>, data: CommData, start: ServerId, v: ServerId, keys: seq<TimeKey>,
                 bypass: bool, i: nat)
    requires PassesOn(proposers, data, start, v, keys, bypass, 0)
    ensures var next := Reaching(proposers, data, v, keys[0])[0];
            && (ArrivesAt(proposers, data, next, v, keys[1..], bypass, i)
                <==> ArrivesAt(proposers, data, start, v, keys, bypass, i + 1))
            && (LostAt(proposers, data, next, v, keys[1..], bypass, i)
                <==> LostAt(proposers, data, start, v, keys, bypass, i + 1))
  {
    UntilTail(proposers, data, start, v, keys, bypass, i);
    PassesTail(proposers, data, start, v, keys, bypass, i);
    assert i < |keys[1..]| ==> keys[1..][i] == keys[i + 1];
  }

  /** A first relay that passes the message on neither delivers nor drops it. */
  lemma NotAtFirst(proposers: seq<ServerId>, data: CommData, start: ServerId, v: ServerId, keys: seq<TimeKey>,
                   bypass: bool)
    requires PassesOn(proposers, data, start, v, keys, bypass, 0)
    ensures !ArrivesAt(proposers, data, start, v, keys, bypass, 0)
            && !LostAt(proposers, data, start, v, keys, bypass, 0)
  {
  }

  /** One relay on: how the journey ends from there says how the whole ends. */
  lemma JourneyTail<M>(o: Outcome<M>, msg: M, proposers: seq<ServerId>, data: CommData, start: ServerId, v: ServerId,
                       keys: seq<TimeKey>, bypass: bool)
    requires PassesOn(proposers, data, start, v, keys, bypass, 0)
    requires EndsAs(o, msg, proposers, data, Reaching(proposers, data, v, keys[0])[0], v, keys[1..], bypass)
    ensures EndsAs(OneMoreHop(o), msg, proposers, data, start, v, keys, bypass)
  {
    DeliveredLater(o, msg, proposers, data, start, v, keys, bypass);
    LostLater(proposers, data, start, v, keys, bypass);
    UntilTail(proposers, data, start, v, keys, bypass, |keys[1..]|);
  }

  lemma LostLater(proposers: seq<ServerId>, data: CommData, start: ServerId, v: ServerId, keys: seq<TimeKey>,
                  bypass: bool)
    requires PassesOn(proposers, data, start, v, keys, bypass, 0)
    ensures IsLost(proposers, data, Reaching(proposers, data, v, keys[0])[0], v, keys[1..], bypass)
       <==> IsLost(proposers, data, start, v, keys, bypass)
  {
    NotAtFirst(proposers, data, start, v, keys, bypass);
    var next := Reaching(proposers, data, v, keys[0])[0];
    if i: nat :| LostAt(proposers, data, next, v, keys[1..], bypass, i) {
      EndsTail(proposers, data, start, v, keys, bypass, i);
    }
    if i: nat :| LostAt(proposers, data, start, v, keys, bypass, i) {
      EndsTail(proposers, data, start, v, keys, bypass, i - 1);
    }
  }

  lemma DeliveredLater<M>(o: Outcome<M>, msg: M, proposers: seq<ServerId>, data: CommData, start: ServerId, v: ServerId,
                          keys: seq<TimeKey>, bypass: bool)
    requires PassesOn(proposers, data, start, v, keys, bypass, 0) && (o.Delivered? ==> o.hops > 0)
    requires DeliversAs(o, msg, proposers, data, Reaching(proposers, data, v, keys[0])[0], v, keys[1..], bypass)
    ensures DeliversAs(OneMoreHop(o), msg, proposers, data, start, v, keys, bypass)
  {
    NotAtFirst(proposers, data, start, v, keys, bypass);
    forall i: nat
      ensures OneMoreHop(o) == Delivered(v, msg, i + 1) <==> ArrivesAt(proposers, data, start, v, keys, bypass, i) {
      if i > 0 {
        EndsTail(proposers, data, start, v, keys, bypass, i - 1);
        assert o == Delivered(v, msg, (i - 1) + 1) <==> OneMoreHop(o) == Delivered(v, msg, i + 1);
      }
    }
  }

  /** When the key changes between two decisions, a relay can hand the message back to its sender. */
  lemma ChangedKeyBouncesBack<M>(msg: M)
    ensures var t := Tables(map[(0, "1.00") := [], (1, "1.00") := [2], (0, "1.01") := [2], (1, "1.01") := []],
                            map[(2, "1.00") := [1], (2, "1.01") := [0]]);
            var data := map["1.00" := map[0 := [], 1 := [2]], "1.01" := map[0 := [2], 1 := []]];
            && Generated(t, [0, 1], [2], data)
            && SendTo(PathToValidator(t, 0, 2, "1.00", true), 0, 2, msg) == [Send(1, Wrapped(msg, 0, 2))]
            && RelaySends(t, 1, Wrapped(msg, 0, 2), "1.01", true) == [Send(0, Wrapped(msg, 0, 2))]
  {
    var data := map["1.00" := map[0 := [], 1 := [2]], "1.01" := map[0 := [2], 1 := []]];
    assert "1.00"[3] != "1.01"[3];
    var none: seq<ServerId> := [];
    assert [0, 1][..1] == [0] && [0][..0] == none;
    forall k ensures Reaching([0, 1], data, 2,
                              k) == (if 2 in Cell(data, 0, k) then [0] else []) + (if 2 in Cell(data, 1,
                                      k) then [1] else []) {
      assert Reaching(none, data, 2, k) == [];
      assert Reaching([0], data, 2, k) == Reaching(none, data, 2, k) + (if 2 in Cell(data, 0, k) then [0] else []);
    }
  }

  // ----- Replies -----

  /** A reply on its way between proposers (connsprop.go:210-215). */
  datatype Hop = FromValidator(at: ServerId, sid: ServerId) | BetweenProposers(at: ServerId, sender: ServerId)

  /** A reply given to its handler at proposer `at` as coming from validator `sid`. */
  datatype Handling = Handling(at: ServerId, sid: ServerId)

  /**
   * dialSendBackWithComCheck (handlers.go:89-116): `encoder` is the connection to whichever proposer
   * the message came from, and is used whenever the owner is in reach.
   */
  function ReplySend(t: Tables, v: ServerId, owner: ServerId, encoder: ServerId, key: TimeKey,
                     bypass: bool): Option<Hop>
  {
    var path := PathToProposer(t, v, owner, key, bypass);
    if path.needDetour then (if path.next.None? then None else Some(FromValidator(path.next.value, v)))
    else Some(FromValidator(encoder, v))
  }

  /**
   * A validator answers on the connection it was addressed on when the proposer it answers reaches it, and
   * otherwise sends its reply to the first proposer that does, if there is one and bypassing is allowed.
   */
  lemma ReplyFirstHop(t: Tables, proposers: seq<ServerId>, validators: seq<ServerId>, data: CommData,
                      v: ServerId, owner: ServerId, encoder: ServerId, key: TimeKey, bypass: bool)
    requires Generated(t, proposers, validators, data) && v in validators && owner in proposers
    ensures var hop := ReplySend(t, v, owner, encoder, key, bypass);
            if v in Cell(data, owner, key) then hop == Some(FromValidator(encoder, v))
            else
              && (hop == None <==> !bypass || !ReachedBySome(proposers, data, v, key))
              && forall i: nat :: bypass && FirstReaching(proposers, data, v, key, i) ==>
                                    hop == Some(FromValidator(proposers[i], v))
  {
    RowIsReaching(t, proposers, validators, data, v, key);
    ReachingMember(proposers, data, v, key, owner);
    HeadReachesFirst(proposers, data, v, key);
  }

  /** The same of a message to a validator: its first hop is v, or the first proposer that reaches v. */
  lemma MessageFirstHop<M>(t: Tables, proposers: seq<ServerId>, validators: seq<ServerId>, data: CommData,
                           self: ServerId, v: ServerId, msg: M, key: TimeKey, bypass: bool)
    requires Generated(t, proposers, validators, data) && v in validators && self in proposers
    ensures var sends := SendTo(PathToValidator(t, self, v, key, bypass), self, v, msg);
            if v in Cell(data, self, key) then sends == [Send(v, Plain(msg))]
            else
              && (sends == [] <==> !bypass || !ReachedBySome(proposers, data, v, key))
              && forall i: nat :: bypass && FirstReaching(proposers, data, v, key, i) ==>
                                    sends == [Send(proposers[i], Wrapped(msg, self, v))]
  {
    RowIsReaching(t, proposers, validators, data, v, key);
    HeadReachesFirst(proposers, data, v, key);
    assert v in Cell(data, self, key) <==> v in Row(t.proToVal, self, key);
  }

  /** Handling or forwarding at a proposer (connsprop.go:209-227, 353-370); `owner` owns the reply's chain. */
  function Process(hop: Hop, owner: ServerId): (seq<Handling>, Option<Hop>)
  {
    match hop
    case FromValidator(at, sid) =>
      if owner != at then ([], Some(BetweenProposers(owner, sid))) else ([Handling(at, sid)], None)
    case BetweenProposers(at, sender) => ([Handling(at, sender)], None)
  }

  /** Every handling that comes of one reply. */
  function Handlings(hop: Option<Hop>, owner: ServerId): seq<Handling>
    decreases if hop.None? then 0 else if hop.value.FromValidator? then 2 else 1
  {
    if hop.None? then []
    else
      var (done, next) := Process(hop.value, owner);
      done + Handlings(next, owner)
  }

  /**
   * Whatever the time and whichever proposer the reply is first sent to, it is handled once, by the
   * owner of its chain and as the validator's; it is lost exactly when the validator has no way out.
   */
  lemma ReplyHandledOnce(t: Tables, v: ServerId, owner: ServerId, encoder: ServerId, key: TimeKey, bypass: bool)
    ensures Handlings(ReplySend(t, v, owner, encoder, key, bypass), owner)
         == if owner in Row(t.valToPro, v, key)
         || (bypass && Row(t.valToPro, v, key) != []) then [Handling(owner, v)] else []
  {
    var hop := ReplySend(t, v, owner, encoder, key, bypass);
    if hop.Some? {
      var (done, next) := Process(hop.value, owner);
      if next.Some? {
        assert Handlings(next, owner) == [Handling(owner, v)] + Handlings(None, owner);
      }
    }
  }

  /** Under one time key, a validator that received a proposer's message gets its reply back to that proposer. */
  lemma RoundTrip<M>(t: Tables, proposers: seq<ServerId>, validators: seq<ServerId>, data: CommData,
                     self: ServerId, v: ServerId, msg: M, key: TimeKey, bypass: bool, s: Send<M>)
    requires Generated(t, proposers, validators, data) && self in proposers && v in validators
    requires SendTo(PathToValidator(t, self, v, key, bypass), self, v, msg) == [s]
    ensures Follow(t, s, [key], bypass).Delivered?
    ensures var encoder := if s.packet.Plain? then self else s.to;
            Handlings(ReplySend(t, v, self, encoder, key, bypass), self) == [Handling(self, v)]
  {
    SingleDelivery(t, proposers, validators, data, self, v, msg, key, [], bypass);
    assert [key] + [] == [key];
    TablesSymmetric(t, proposers, validators, data, self, v, key);
    ReachedBySomeRow(t, proposers, validators, data, v, key);
    ReplyHandledOnce(t, v, self, if s.packet.Plain? then self else s.to, key, bypass);
  }
}
