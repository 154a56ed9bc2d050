/** The records a conference room keeps in Redis, and the commands that controllers send to media servers.
    Identifiers are compared only for equality, so they are numbers here. */
module RoomModel {

  type Id = nat

  datatype Option<+T> = None | Some(value: T)

  datatype Client = Client(id: Id, agent: Id, erizo: Id, bridgeIp: Id, bridgePort: int, room: Id, replyTo: Id)

  datatype Publisher = Publisher(
    id: Id, client: Id, erizo: Id, bridgeIp: Id, bridgePort: int, agent: Id, name: string,
    videoSsrc: nat, audioSsrc: nat)

  datatype Subscriber = Subscriber(
    id: Id, client: Id, erizo: Id, agent: Id, subscribeTo: Id, replyTo: Id, isBridge: bool)

  datatype Bridge = Bridge(
    id: Id, sender: Id, senderIp: Id, senderPort: int,
    recver: Id, recverIp: Id, recverPort: int, src: Id, count: int)

  /** What a bridge is shared by: the stream it carries and the erizo that receives it. */
  datatype Key = Key(src: Id, recver: Id)

  /** The three hashes that every handler changes under the room's lock. */
  datatype Room = Room(pubs: map<Id, Publisher>, subs: map<Id, Subscriber>, bridges: map<Id, Bridge>)

  const EmptyRoom := Room(map[], map[], map[])

  function BridgeKey(b: Bridge): Key {
    Key(b.src, b.recver)
  }

  function SubKey(s: Subscriber): Key {
    Key(s.subscribeTo, s.erizo)
  }

  /** A publisher is answered once both of its SSRCs are set; a new publisher has zeros. */
  predicate Answered(p: Publisher) {
    p.videoSsrc != 0 && p.audioSsrc != 0
  }

  // ----- Commands and what a media server makes of them -----

  datatype Command =
    | AddPublisher(queue: Id, client: Id, stream: Id, name: string)
    | RemovePublisher(queue: Id, client: Id, stream: Id)
    | AddSubscriber(queue: Id, client: Id, stream: Id, name: string)
    | RemoveSubscriber(queue: Id, client: Id, stream: Id)
    | NotifyRemoved(queue: Id, client: Id, stream: Id)
    | AddVirtualPublisher(queue: Id, bridge: Id, src: Id, ip: Id, port: int, videoSsrc: nat, audioSsrc: nat)
    | AddVirtualSubscriber(queue: Id, bridge: Id, src: Id, ip: Id, port: int)
    | RemoveVirtualPublisher(queue: Id, src: Id)
    | RemoveVirtualSubscriber(queue: Id, bridge: Id, src: Id)

  datatype Feed = Feed(erizo: Id, client: Id, stream: Id)
  datatype VirtualPublisher = VirtualPublisher(erizo: Id, src: Id, bridge: Id, ip: Id, port: int)
  datatype VirtualSubscriber = VirtualSubscriber(erizo: Id, bridge: Id, src: Id, ip: Id, port: int)

  /** The sessions that live on the media servers. */
  datatype Media = Media(
    pubs: set<Feed>, subs: set<Feed>, vpubs: set<VirtualPublisher>, vsubs: set<VirtualSubscriber>)

  /** A removal names only what the command carries: every session that matches goes. */
  ghost function Apply(m: Media, c: Command): Media {
    match c
    case AddPublisher(q, cl, st, _) => m.(pubs := m.pubs + {Feed(q, cl, st)})
    case RemovePublisher(q, cl, st) => m.(pubs := m.pubs - {Feed(q, cl, st)})
    case AddSubscriber(q, cl, st, _) => m.(subs := m.subs + {Feed(q, cl, st)})
    case RemoveSubscriber(q, cl, st) => m.(subs := m.subs - {Feed(q, cl, st)})
    case NotifyRemoved(_, _, _) => m
    case AddVirtualPublisher(q, b, src, ip, port, _, _) =>
      m.(vpubs := m.vpubs + {VirtualPublisher(q, src, b, ip, port)})
    case AddVirtualSubscriber(q, b, src, ip, port) =>
      m.(vsubs := m.vsubs + {VirtualSubscriber(q, b, src, ip, port)})
    case RemoveVirtualPublisher(q, src) =>
      m.(vpubs := set v | v in m.vpubs && !(v.erizo == q && v.src == src))
    case RemoveVirtualSubscriber(q, b, _) =>
      m.(vsubs := set v | v in m.vsubs && !(v.erizo == q && v.bridge == b))
  }

  ghost function Replay(log: seq<Command>): Media {
    if log == [] then Media({}, {}, {}, {}) else Apply(Replay(log[..|log| - 1]), log[|log| - 1])
  }

  lemma ReplayOne(log: seq<Command>, c: Command)
    ensures Replay(log + [c]) == Apply(Replay(log), c)
  {
    assert (log + [c])[..|log|] == log;
  }

  lemma ReplayTwo(log: seq<Command>, c: Command, d: Command)
    ensures Replay(log + [c, d]) == Apply(Apply(Replay(log), c), d)
  {
    assert log + [c, d] == (log + [c]) + [d];
    ReplayOne(log, c);
    ReplayOne(log + [c], d);
  }

  function PubFeed(p: Publisher): Feed { Feed(p.erizo, p.client, p.id) }

  function SubFeed(s: Subscriber): Feed { Feed(s.erizo, s.client, s.subscribeTo) }

  function VPub(b: Bridge): VirtualPublisher {
    VirtualPublisher(b.recver, b.src, b.id, b.senderIp, b.senderPort)
  }

  function VSub(b: Bridge): VirtualSubscriber {
    VirtualSubscriber(b.sender, b.id, b.src, b.recverIp, b.recverPort)
  }

  ghost function PubFeeds(pubs: map<Id, Publisher>): set<Feed> { set i | i in pubs :: PubFeed(pubs[i]) }
  ghost function SubFeeds(subs: map<Id, Subscriber>): set<Feed> { set i | i in subs :: SubFeed(subs[i]) }
  ghost function VPubs(bridges: map<Id, Bridge>): set<VirtualPublisher> { set i | i in bridges :: VPub(bridges[i]) }
  ghost function VSubs(bridges: map<Id, Bridge>): set<VirtualSubscriber> { set i | i in bridges :: VSub(bridges[i]) }

  /** The sessions that the room's hashes call for. */
  ghost function MediaOf(room: Room): Media {
    Media(PubFeeds(room.pubs), SubFeeds(room.subs), VPubs(room.bridges), VSubs(room.bridges))
  }
}
