/** Redis as the controllers use it, through RedisHelper: hashes of records keyed by record id, and calls that are either
    answered or lost. The commands sent to media servers are kept as a ghost log, room by room. */
module RedisStore {
  import opened RoomModel
  import opened Counting
  import opened Handlers
  import opened RoomSpec
  import opened ClientHashes

  ghost predicate KeyedRoom(room: Room) {
    Keyed(room) && BridgesKeyed(room.bridges)
  }

  /** Everything there is: the rooms, the commands sent for each, and who is listed where. */
  datatype World = World(rooms: map<Id, Room>, log: map<Id, seq<Command>>, registry: Registry)

  function SharedIn(w: World, r: Id): Shared {
    Shared(if r in w.rooms then w.rooms[r] else EmptyRoom, if r in w.log then w.log[r] else [])
  }

  /** A listing of a hash: each field once, in any order. */
  ghost predicate Lists<T>(ids: seq<Id>, xs: seq<T>, m: map<Id, T>) {
    && |ids| == |xs|
    && (forall a :: 0 <= a < |ids| ==> ids[a] in m && m[ids[a]] == xs[a])
    && (forall i :: i in m ==> i in ids)
    && (forall a, b :: 0 <= a < b < |ids| ==> ids[a] != ids[b])
  }

  method Values<T>(m: map<Id, T>) returns (xs: seq<T>, ghost ids: seq<Id>)
    ensures Lists(ids, xs, m)
  {
    xs, ids := [], [];
    var left := m.Keys;
    while left != {}
      invariant left <= m.Keys && |ids| == |xs|
      invariant forall a :: 0 <= a < |ids| ==> ids[a] in m && m[ids[a]] == xs[a] && ids[a] !in left
      invariant forall i :: i in m && i !in left ==> i in ids
      invariant forall a, b :: 0 <= a < b < |ids| ==> ids[a] != ids[b]
      decreases left
    {
      var i :| i in left;
      xs, ids, left := xs + [m[i]], ids + [i], left - {i};
    }
  }

  method AnyFate() returns (fate: Fate)
  {
    var answered, taken := *, *;
    fate := if answered then Good else Lost(taken);
  }

  class Redis {
    var rooms: map<Id, Room>
    var clients: map<Id, map<Id, Client>>   // by room: the client_<room> hashes
    var members: map<Id, map<Id, Client>>   // by controller: the hashes named by controller ids
    ghost var log: map<Id, seq<Command>>
    ghost var episodes: map<Id, Episode>
    ghost var torn: set<Id>
    /** How many calls have been lost. */
    ghost var lost: nat

    constructor ()
      ensures Valid() && Now() == World(map[], map[], Nobody)
    {
      rooms, clients, members, log, episodes, torn, lost := map[], map[], map[], map[], map[], {}, 0;
    }

    ghost predicate Valid()
      reads this
    {
      forall r :: r in rooms ==> KeyedRoom(rooms[r])
    }

    function RoomOf(r: Id): Room
      reads this
    {
      if r in rooms then rooms[r] else EmptyRoom
    }

    ghost function Registered(): Registry
      reads this
    {
      Registry(clients, members, episodes, torn)
    }

    ghost function Now(): World
      reads this
    {
      World(rooms, log, Registered())
    }

    ghost function At(r: Id): Shared
      reads this
    {
      Shared(RoomOf(r), if r in log then log[r] else [])
    }

    /** Nothing but room r has changed. */
    twostate predicate OnlyRoom(r: Id)
      reads this
    {
      && (forall x :: x != r ==> At(x) == old(At(x)))
      && clients == old(clients) && members == old(members) && episodes == old(episodes) && torn == old(torn)
      && lost >= old(lost)
    }

    /** One call, answered or lost. */
    method Call() returns (fate: Fate)
      modifies this`lost
      ensures lost == old(lost) + if fate.Good? then 0 else 1
    {
      fate := AnyFate();
      lost := lost + if fate.Good? then 0 else 1;
    }

    method Send(r: Id, ghost cmds: seq<Command>)
      requires Valid()
      modifies this`log
      ensures Valid() && OnlyRoom(r)
      ensures At(r) == old(At(r)).(log := old(At(r)).log + cmds)
    {
      log := log[r := At(r).log + cmds];
    }

    method Write(r: Id, room: Room) returns (fate: Fate)
      requires Valid() && KeyedRoom(room)
      modifies this`rooms, this`lost
      ensures Valid() && OnlyRoom(r)
      ensures At(r) == old(At(r)).(room := Written(old(At(r)), room, fate))
      ensures lost == old(lost) + if fate.Good? then 0 else 1
    {
      fate := Call();
      rooms := rooms[r := Written(Shared(RoomOf(r), []), room, fate)];
    }

    // ----- Reads -----

    method GetPublisher(r: Id, stream: Id) returns (fate: Fate, p: Option<Publisher>)
      requires Valid()
      modifies this`lost
      ensures lost == old(lost) + if fate.Good? then 0 else 1
      ensures fate.Good? ==> p == if stream in RoomOf(r).pubs then Some(RoomOf(r).pubs[stream]) else None
      ensures fate.Lost? ==> p == None
      ensures p.Some? ==> p.value.id == stream
    {
      p := None;
      fate := Call();
      if fate.Good? && stream in RoomOf(r).pubs {
        p := Some(RoomOf(r).pubs[stream]);
      }
    }

    method GetAllSubscriber(r: Id) returns (fate: Fate, xs: seq<Subscriber>)
      requires Valid()
      modifies this`lost
      ensures lost == old(lost) + if fate.Good? then 0 else 1
      ensures fate.Good? ==> SubSnapshot(xs, RoomOf(r).subs)
    {
      xs := [];
      fate := Call();
      if fate.Good? {
        ghost var ids: seq<Id>;
        xs, ids := Values(RoomOf(r).subs);
        assert forall a :: 0 <= a < |xs| ==> xs[a].id == ids[a];
      }
    }

    method GetAllPublisher(r: Id) returns (fate: Fate, xs: seq<Publisher>)
      requires Valid()
      modifies this`lost
      ensures lost == old(lost) + if fate.Good? then 0 else 1
      ensures fate.Good? ==> PubSnapshot(xs, RoomOf(r).pubs)
    {
      xs := [];
      fate := Call();
      if fate.Good? {
        ghost var ids: seq<Id>;
        xs, ids := Values(RoomOf(r).pubs);
        assert forall a :: 0 <= a < |xs| ==> xs[a].id == ids[a];
      }
    }

    method GetAllBridgeStream(r: Id) returns (fate: Fate, xs: seq<Bridge>, ghost ids: seq<Id>)
      requires Valid()
      modifies this`lost
      ensures lost == old(lost) + if fate.Good? then 0 else 1
      ensures fate.Good? ==> Lists(ids, xs, RoomOf(r).bridges)
    {
      xs, ids := [], [];
      fate := Call();
      if fate.Good? {
        xs, ids := Values(RoomOf(r).bridges);
      }
    }

    method GetAllClientFromEC(ec: Id) returns (fate: Fate, xs: seq<Client>, ghost ids: seq<Id>)
      modifies this`lost
      ensures lost == old(lost) + if fate.Good? then 0 else 1
      ensures fate.Good? ==> Lists(ids, xs, Hash(members, ec))
    {
      xs, ids := [], [];
      fate := Call();
      if fate.Good? {
        xs, ids := Values(Hash(members, ec));
      }
    }

    // ----- Client hashes: each call is one write of a token or a removal -----

    method AddClient(c: Client) returns (fate: Fate)
      modifies this`clients, this`episodes, this`torn, this`lost
      ensures lost == old(lost) + if fate.Good? then 0 else 1
      ensures Registered() == Enact(old(Registered()), TokenFirst(c, fate))
    {
      ghost var g := Registered();
      fate := Call();
      if fate != Lost(false) {
        clients := Put(clients, c.room, c);
      }
      Record(Enact(g, TokenFirst(c, fate)));
    }

    method AddClientToEC(ec: Id, c: Client) returns (fate: Fate)
      requires ec == c.replyTo && EpisodeOf(Registered(), c).tokens > 0
      modifies this`members, this`episodes, this`torn, this`lost
      ensures lost == old(lost) + if fate.Good? then 0 else 1
      ensures Registered() == Enact(old(Registered()), TokenSecond(c, fate))
    {
      ghost var g := Registered();
      fate := Call();
      if fate != Lost(false) {
        members := Put(members, ec, c);
      }
      Record(Enact(g, TokenSecond(c, fate)));
    }

    method RemoveClient(r: Id, id: Id, ghost c: Client) returns (fate: Fate)
      requires r == c.room && id == c.id
      modifies this`clients, this`episodes, this`torn, this`lost
      ensures lost == old(lost) + if fate.Good? then 0 else 1
      ensures Registered() == Enact(old(Registered()), LeaveFirst(c, fate))
    {
      ghost var g := Registered();
      fate := Call();
      if fate != Lost(false) {
        clients := Cut(clients, r, id);
      }
      Record(Enact(g, LeaveFirst(c, fate)));
    }

    method RemoveClientFromEC(ec: Id, id: Id, ghost c: Client) returns (fate: Fate)
      requires ec == c.replyTo && id == c.id && EpisodeOf(Registered(), c).removals > 0
      modifies this`members, this`episodes, this`torn, this`lost
      ensures lost == old(lost) + if fate.Good? then 0 else 1
      ensures Registered() == Enact(old(Registered()), LeaveSecond(c, fate))
    {
      ghost var g := Registered();
      fate := Call();
      if fate != Lost(false) {
        members := Cut(members, ec, id);
      }
      Record(Enact(g, LeaveSecond(c, fate)));
    }

    /** Keeps the ghost account of who is in the middle of a token or a removal. */
    ghost method Record(g: Registry)
      modifies this`episodes, this`torn
      ensures episodes == g.episodes && torn == g.torn
    {
      episodes, torn := g.episodes, g.torn;
    }
  }
}
