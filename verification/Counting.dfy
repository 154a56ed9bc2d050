/** Reference counts of bridges against the subscriber records that use them. A set `off` of subscriber ids
    stands for records that the counts do not cover at the moment: a record just added whose bridge is not written
    yet, or one already taken off its bridge and about to be deleted. */
module Counting {
  import opened RoomModel

  predicate Uses(s: Subscriber, k: Key) {
    s.isBridge && SubKey(s) == k
  }

  ghost function Users(subs: map<Id, Subscriber>, off: set<Id>, k: Key): set<Id> {
    set i | i in subs && i !in off && Uses(subs[i], k)
  }

  ghost function UserCount(subs: map<Id, Subscriber>, off: set<Id>, k: Key): nat {
    |Users(subs, off, k)|
  }

  ghost predicate BridgesKeyed(bridges: map<Id, Bridge>) {
    forall i :: i in bridges ==> bridges[i].id == i
  }

  ghost predicate UniqueKeys(bridges: map<Id, Bridge>) {
    forall i, j :: i in bridges && j in bridges && BridgeKey(bridges[i]) == BridgeKey(bridges[j]) ==> i == j
  }

  ghost predicate HasBridge(bridges: map<Id, Bridge>, k: Key) {
    exists i :: i in bridges && BridgeKey(bridges[i]) == k
  }

  /** No count exceeds the records that back it. This survives every failed Redis call. */
  ghost predicate Safe(room: Room, off: set<Id>) {
    && BridgesKeyed(room.bridges)
    && UniqueKeys(room.bridges)
    && (forall i :: i in room.bridges ==>
          1 <= room.bridges[i].count <= UserCount(room.subs, off, BridgeKey(room.bridges[i])))
  }

  /** Every count is exactly the number of records that use the bridge, and every user has its bridge. */
  ghost predicate Exact(room: Room, off: set<Id>) {
    && BridgesKeyed(room.bridges)
    && UniqueKeys(room.bridges)
    && (forall i :: i in room.bridges ==>
          1 <= room.bridges[i].count == UserCount(room.subs, off, BridgeKey(room.bridges[i])))
    && (forall i :: i in room.subs && i !in off && room.subs[i].isBridge ==>
          HasBridge(room.bridges, SubKey(room.subs[i])))
  }

  /** The count a key has in the bridge hash, 0 when the key has no bridge. */
  ghost function CountOf(bridges: map<Id, Bridge>, k: Key): int {
    if HasBridge(bridges, k) then
      var i :| i in bridges && BridgeKey(bridges[i]) == k; bridges[i].count
    else 0
  }

  /** Exactness read key by key: the count, 0 if absent, is the number of bridged records with that key. */
  lemma ExactCounts(room: Room, k: Key)
    requires Exact(room, {})
    ensures CountOf(room.bridges, k) == UserCount(room.subs, {}, k)
  {
    if !HasBridge(room.bridges, k) {
      NoBridgeNoUser(room, {}, k);
    }
  }

  lemma NoBridgeNoUser(room: Room, off: set<Id>, k: Key)
    requires Exact(room, off)
    requires !HasBridge(room.bridges, k)
    ensures Users(room.subs, off, k) == {}
  {
    assert forall x :: x in Users(room.subs, off, k) ==> HasBridge(room.bridges, SubKey(room.subs[x]));
  }

  /** A bridge never outlives its last subscriber record. */
  lemma SafeBridgeHasUser(room: Room, i: Id) returns (u: Id)
    requires Safe(room, {})
    requires i in room.bridges
    ensures u in room.subs && Uses(room.subs[u], BridgeKey(room.bridges[i]))
  {
    var users := Users(room.subs, {}, BridgeKey(room.bridges[i]));
    assert users != {};
    u :| u in users;
  }

  lemma ExactIsSafe(room: Room, off: set<Id>)
    requires Exact(room, off)
    ensures Safe(room, off)
  {
  }

  // ----- How the users of a key move -----

  lemma SubsetSize(a: set<Id>, b: set<Id>)
    requires a <= b
    ensures |a| <= |b|
  {
    if a != b {
      var rest := b - a;
      assert b == a + rest;
    }
  }

  /** Covering more records can only raise the number of users. */
  lemma UsersMonotone(subs: map<Id, Subscriber>, off: set<Id>, fewer: set<Id>, k: Key)
    requires fewer <= off
    ensures UserCount(subs, off, k) <= UserCount(subs, fewer, k)
  {
    SubsetSize(Users(subs, off, k), Users(subs, fewer, k));
  }

  lemma UsersTakeOff(subs: map<Id, Subscriber>, off: set<Id>, i: Id, k: Key)
    requires i in subs && i !in off
    ensures UserCount(subs, off, k) == UserCount(subs, off + {i}, k) + (if Uses(subs[i], k) then 1 else 0)
  {
    var before, after := Users(subs, off, k), Users(subs, off + {i}, k);
    if Uses(subs[i], k) {
      assert before == after + {i};
    } else {
      assert before == after;
    }
  }

  lemma UsersAdd(subs: map<Id, Subscriber>, s: Subscriber, k: Key)
    requires s.id !in subs
    ensures UserCount(subs[s.id := s], {s.id}, k) == UserCount(subs, {}, k)
  {
    assert Users(subs[s.id := s], {s.id}, k) == Users(subs, {}, k);
  }

  lemma UsersAddUnused(subs: map<Id, Subscriber>, s: Subscriber, off: set<Id>, k: Key)
    requires s.id !in subs && !s.isBridge
    ensures UserCount(subs[s.id := s], off, k) == UserCount(subs, off, k)
  {
    assert Users(subs[s.id := s], off, k) == Users(subs, off, k);
  }

  lemma UsersDelete(subs: map<Id, Subscriber>, gone: set<Id>, k: Key)
    ensures UserCount(subs - gone, {}, k) == UserCount(subs, gone, k)
  {
    assert Users(subs - gone, {}, k) == Users(subs, gone, k);
  }

  // ----- Safe -----

  lemma SafeWeaken(room: Room, off: set<Id>, fewer: set<Id>)
    requires Safe(room, off) && fewer <= off
    ensures Safe(room, fewer)
  {
    forall i | i in room.bridges
      ensures 1 <= room.bridges[i].count <= UserCount(room.subs, fewer, BridgeKey(room.bridges[i]))
    {
      UsersMonotone(room.subs, off, fewer, BridgeKey(room.bridges[i]));
    }
  }

  lemma SafePubs(room: Room, off: set<Id>, pubs: map<Id, Publisher>)
    requires Safe(room, off)
    ensures Safe(room.(pubs := pubs), off)
  {
  }

  lemma SafeAddSub(room: Room, s: Subscriber)
    requires Safe(room, {}) && s.id !in room.subs
    ensures Safe(room.(subs := room.subs[s.id := s]), {s.id})
  {
    forall k { UsersAdd(room.subs, s, k); }
  }

  lemma SafeBump(room: Room, i: Id, b: Id)
    requires Safe(room, {i}) && i in room.subs && b in room.bridges
    requires Uses(room.subs[i], BridgeKey(room.bridges[b]))
    ensures Safe(room.(bridges := room.bridges[b := room.bridges[b].(count := room.bridges[b].count + 1)]), {})
  {
    forall k { UsersTakeOff(room.subs, {}, i, k); }
    assert {} + {i} == {i};
  }

  lemma SafeNew(room: Room, i: Id, b: Bridge)
    requires Safe(room, {i}) && i in room.subs && b.id !in room.bridges
    requires Uses(room.subs[i], BridgeKey(b)) && !HasBridge(room.bridges, BridgeKey(b)) && b.count == 1
    ensures Safe(room.(bridges := room.bridges[b.id := b]), {})
  {
    forall k { UsersTakeOff(room.subs, {}, i, k); }
    assert {} + {i} == {i};
  }

  /** Taking one user off a bridge lowers the count, or removes the bridge when the count runs out. */
  lemma SafeLower(room: Room, off: set<Id>, i: Id, b: Id)
    requires Safe(room, off) && i in room.subs && b in room.bridges
    requires Uses(room.subs[i], BridgeKey(room.bridges[b]))
    requires 1 < room.bridges[b].count
    ensures Safe(room.(bridges := room.bridges[b := room.bridges[b].(count := room.bridges[b].count - 1)]), off + {i})
  {
    if i in off {
      assert off + {i} == off;
    } else {
      forall k { UsersTakeOff(room.subs, off, i, k); }
    }
  }

  lemma SafeDropOne(room: Room, off: set<Id>, i: Id, b: Id)
    requires Safe(room, off) && i in room.subs && b in room.bridges
    requires Uses(room.subs[i], BridgeKey(room.bridges[b]))
    ensures Safe(room.(bridges := room.bridges - {b}), off + {i})
  {
    if i in off {
      assert off + {i} == off;
    } else {
      forall k { UsersTakeOff(room.subs, off, i, k); }
    }
  }

  /** A record that has no bridge can be taken off without touching any count. */
  lemma SafeTakeOff(room: Room, off: set<Id>, i: Id)
    requires Safe(room, off) && i in room.subs
    requires !room.subs[i].isBridge || !HasBridge(room.bridges, SubKey(room.subs[i]))
    ensures Safe(room, off + {i})
  {
    if i in off {
      assert off + {i} == off;
    } else {
      forall k { UsersTakeOff(room.subs, off, i, k); }
    }
  }

  lemma SafeDelete(room: Room, gone: set<Id>)
    requires Safe(room, gone)
    ensures Safe(room.(subs := room.subs - gone), {})
  {
    forall k { UsersDelete(room.subs, gone, k); }
  }

  // ----- Exact -----

  lemma ExactAddSub(room: Room, s: Subscriber)
    requires Exact(room, {}) && s.id !in room.subs
    ensures Exact(room.(subs := room.subs[s.id := s]), {s.id})
    ensures !s.isBridge ==> Exact(room.(subs := room.subs[s.id := s]), {})
  {
    forall k { UsersAdd(room.subs, s, k); }
    if !s.isBridge {
      forall k { UsersAddUnused(room.subs, s, {}, k); }
    }
  }

  lemma ExactBump(room: Room, i: Id, b: Id)
    requires Exact(room, {i}) && i in room.subs && b in room.bridges
    requires Uses(room.subs[i], BridgeKey(room.bridges[b]))
    ensures Exact(room.(bridges := room.bridges[b := room.bridges[b].(count := room.bridges[b].count + 1)]), {})
  {
    var bridges := room.bridges[b := room.bridges[b].(count := room.bridges[b].count + 1)];
    forall k { UsersTakeOff(room.subs, {}, i, k); }
    assert {} + {i} == {i};
    forall x | x in room.subs && room.subs[x].isBridge
      ensures HasBridge(bridges, SubKey(room.subs[x]))
    {
      if x == i {
        assert BridgeKey(bridges[b]) == SubKey(room.subs[x]);
      } else {
        var y :| y in room.bridges && BridgeKey(room.bridges[y]) == SubKey(room.subs[x]);
        assert BridgeKey(bridges[y]) == SubKey(room.subs[x]);
      }
    }
  }

  lemma ExactNew(room: Room, i: Id, b: Bridge)
    requires Exact(room, {i}) && i in room.subs && b.id !in room.bridges
    requires Uses(room.subs[i], BridgeKey(b)) && !HasBridge(room.bridges, BridgeKey(b)) && b.count == 1
    ensures Exact(room.(bridges := room.bridges[b.id := b]), {})
  {
    var bridges := room.bridges[b.id := b];
    var k := BridgeKey(b);
    NoBridgeNoUser(room, {i}, k);
    forall k { UsersTakeOff(room.subs, {}, i, k); }
    assert {} + {i} == {i};
    forall x | x in room.subs && room.subs[x].isBridge
      ensures HasBridge(bridges, SubKey(room.subs[x]))
    {
      if x == i {
        assert BridgeKey(bridges[b.id]) == SubKey(room.subs[x]);
      } else {
        var y :| y in room.bridges && BridgeKey(room.bridges[y]) == SubKey(room.subs[x]);
        assert BridgeKey(bridges[y]) == SubKey(room.subs[x]);
      }
    }
  }

  /** The bridge of a covered user exists, so taking the user off finds it. */
  lemma ExactLower(room: Room, off: set<Id>, i: Id, b: Id)
    requires Exact(room, off) && i in room.subs && i !in off && b in room.bridges
    requires Uses(room.subs[i], BridgeKey(room.bridges[b]))
    ensures 1 < room.bridges[b].count ==>
              Exact(room.(bridges := room.bridges[b := room.bridges[b].(count := room.bridges[b].count - 1)]), off + {i})
    ensures room.bridges[b].count <= 1 ==> Exact(room.(bridges := room.bridges - {b}), off + {i})
  {
    forall k { UsersTakeOff(room.subs, off, i, k); }
    var lowered := room.bridges[b := room.bridges[b].(count := room.bridges[b].count - 1)];
    var key := BridgeKey(room.bridges[b]);
    forall x | x in room.subs && x !in off + {i} && room.subs[x].isBridge
      ensures 1 < room.bridges[b].count ==> HasBridge(lowered, SubKey(room.subs[x]))
      ensures room.bridges[b].count <= 1 ==> HasBridge(room.bridges - {b}, SubKey(room.subs[x]))
    {
      var y :| y in room.bridges && BridgeKey(room.bridges[y]) == SubKey(room.subs[x]);
      assert BridgeKey(lowered[y]) == SubKey(room.subs[x]);
      if room.bridges[b].count <= 1 {
        assert x !in Users(room.subs, off + {i}, key);
        assert y in room.bridges - {b};
      }
    }
  }

  lemma ExactTakeOff(room: Room, off: set<Id>, i: Id)
    requires Exact(room, off) && i in room.subs && !room.subs[i].isBridge
    ensures Exact(room, off + {i})
  {
    if i in off {
      assert off + {i} == off;
    } else {
      forall k { UsersTakeOff(room.subs, off, i, k); }
    }
  }

  lemma ExactDelete(room: Room, gone: set<Id>)
    requires Exact(room, gone)
    ensures Exact(room.(subs := room.subs - gone), {})
  {
    forall k { UsersDelete(room.subs, gone, k); }
  }
}
