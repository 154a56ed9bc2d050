/** The client hashes of rooms and of controllers. Tokens and removals write to both, one call at a time and outside any
    common lock, so the writes of different clients and controllers interleave freely, and any of them may be lost. */
module ClientHashes {
  import opened RoomModel
  import opened Handlers

  // Hashes of clients, by key; a key that is not there is an empty hash.

  function Hash(m: map<Id, map<Id, Client>>, key: Id): map<Id, Client> {
    if key in m then m[key] else map[]
  }

  function Put(m: map<Id, map<Id, Client>>, key: Id, c: Client): map<Id, map<Id, Client>> {
    m[key := Hash(m, key)[c.id := c]]
  }

  function Cut(m: map<Id, map<Id, Client>>, key: Id, id: Id): map<Id, map<Id, Client>> {
    m[key := Hash(m, key) - {id}]
  }

  /** One write of a token or of a removal. */
  datatype Event =
    | TokenFirst(c: Client, fate: Fate)
    | TokenSecond(c: Client, fate: Fate)
    | LeaveFirst(c: Client, fate: Fate)
    | LeaveSecond(c: Client, fate: Fate)

  /** The tokens and removals of one client that are in progress, from the first of them on: how many there are, whether the
      client was listed before, and the last write that took effect in its room's hash and in its controller's hash
      (true for an entry, false for a removal). */
  datatype Episode = Episode(tokens: nat, removals: nat, listed: bool, room: Option<bool>, controller: Option<bool>)

  /** `torn` collects the clients that an episode left listed in one hash only. */
  datatype Registry = Registry(clients: map<Id, map<Id, Client>>, members: map<Id, map<Id, Client>>,
                               episodes: map<Id, Episode>, torn: set<Id>)

  const Nobody := Registry(map[], map[], map[], {})

  predicate TookEffect(fate: Fate) {
    fate != Lost(false)
  }

  function ClientsAfter(m: map<Id, map<Id, Client>>, e: Event): map<Id, map<Id, Client>> {
    if !TookEffect(e.fate) then m
    else if e.TokenFirst? then Put(m, e.c.room, e.c)
    else if e.LeaveFirst? then Cut(m, e.c.room, e.c.id)
    else m
  }

  function MembersAfter(m: map<Id, map<Id, Client>>, e: Event): map<Id, map<Id, Client>> {
    if !TookEffect(e.fate) then m
    else if e.TokenSecond? then Put(m, e.c.replyTo, e.c)
    else if e.LeaveSecond? then Cut(m, e.c.replyTo, e.c.id)
    else m
  }

  function EpisodeOf(g: Registry, c: Client): Episode {
    if c.id in g.episodes then g.episodes[c.id] else Episode(0, 0, c.id in Hash(g.clients, c.room), None, None)
  }

  function Effect(before: Option<bool>, fate: Fate, entry: bool): Option<bool> {
    if TookEffect(fate) then Some(entry) else before
  }

  /** A second write belongs to a token or a removal that made its first. */
  predicate Enabled(g: Registry, e: Event) {
    && (e.TokenSecond? ==> EpisodeOf(g, e.c).tokens > 0)
    && (e.LeaveSecond? ==> EpisodeOf(g, e.c).removals > 0)
  }

  /** A token stops at a lost first write; a removal goes on. */
  function Continue(o: Episode, e: Event): Episode
    requires (e.TokenSecond? ==> o.tokens > 0) && (e.LeaveSecond? ==> o.removals > 0)
  {
    match e
    case TokenFirst(_, fate) =>
      o.(tokens := o.tokens + if fate.Good? then 1 else 0, room := Effect(o.room, fate, true))
    case TokenSecond(_, fate) => o.(tokens := o.tokens - 1, controller := Effect(o.controller, fate, true))
    case LeaveFirst(_, fate) => o.(removals := o.removals + 1, room := Effect(o.room, fate, false))
    case LeaveSecond(_, fate) => o.(removals := o.removals - 1, controller := Effect(o.controller, fate, false))
  }

  function Outcome(last: Option<bool>, listed: bool): bool {
    if last.Some? then last.value else listed
  }

  /** The last writes that took effect in the two hashes disagree; where none did, it stays as it was before. */
  predicate Tears(o: Episode) {
    Outcome(o.room, o.listed) != Outcome(o.controller, o.listed)
  }

  function Enact(g: Registry, e: Event): Registry
    requires Enabled(g, e)
  {
    var o := Continue(EpisodeOf(g, e.c), e);
    var over := o.tokens == 0 && o.removals == 0;
    Registry(
      ClientsAfter(g.clients, e), MembersAfter(g.members, e),
      if over then g.episodes - {e.c.id} else g.episodes[e.c.id := o],
      if over && Tears(o) then g.torn + {e.c.id} else g.torn)
  }

  // ----- Where a client is listed -----

  /** Every entry is the record the client got at its token, in the hash of its room or its controller. */
  ghost predicate Filed(home: Id -> Client, g: Registry) {
    && FiledUnder(home, g.clients, i => home(i).room)
    && FiledUnder(home, g.members, i => home(i).replyTo)
  }

  ghost predicate FiledUnder(home: Id -> Client, m: map<Id, map<Id, Client>>, key: Id -> Id) {
    forall x, k :: k in Hash(m, x) ==> home(k).id == k && key(k) == x && Hash(m, x)[k] == home(k)
  }

  ghost predicate InRoomHash(home: Id -> Client, g: Registry, i: Id) {
    i in Hash(g.clients, home(i).room)
  }

  ghost predicate InControllerHash(home: Id -> Client, g: Registry, i: Id) {
    i in Hash(g.members, home(i).replyTo)
  }

  ghost predicate Paired(home: Id -> Client, g: Registry, i: Id) {
    InRoomHash(home, g, i) <==> InControllerHash(home, g, i)
  }

  /** No token or removal of the client is in progress. */
  predicate Idle(g: Registry, i: Id) {
    i !in g.episodes
  }

  ghost predicate Tracked(home: Id -> Client, g: Registry, i: Id) {
    i !in g.torn ==>
      if Idle(g, i) then Paired(home, g, i)
      else
        var o := g.episodes[i];
        && InRoomHash(home, g, i) == Outcome(o.room, o.listed)
        && InControllerHash(home, g, i) == Outcome(o.controller, o.listed)
  }

  ghost predicate Sound(home: Id -> Client, g: Registry) {
    Filed(home, g) && forall i :: Tracked(home, g, i)
  }

  lemma PutFiled(home: Id -> Client, m: map<Id, map<Id, Client>>, key: Id -> Id, c: Client)
    requires FiledUnder(home, m, key) && home(c.id) == c
    ensures FiledUnder(home, Put(m, key(c.id), c), key)
  {
    var m' := Put(m, key(c.id), c);
    forall x, k | k in Hash(m', x) ensures home(k).id == k && key(k) == x && Hash(m', x)[k] == home(k) {
      assert k in Hash(m, x) || (k == c.id && x == key(c.id));
    }
  }

  lemma CutFiled(home: Id -> Client, m: map<Id, map<Id, Client>>, key: Id -> Id, x: Id, id: Id)
    requires FiledUnder(home, m, key)
    ensures FiledUnder(home, Cut(m, x, id), key)
  {
    var m' := Cut(m, x, id);
    forall y, k | k in Hash(m', y) ensures home(k).id == k && key(k) == y && Hash(m', y)[k] == home(k) {
      assert k in Hash(m, y) && Hash(m, y)[k] == Hash(m', y)[k];
    }
  }

  lemma FiledKeeps(home: Id -> Client, g: Registry, e: Event)
    requires Filed(home, g) && home(e.c.id) == e.c && Enabled(g, e)
    ensures Filed(home, Enact(g, e))
  {
    hide FiledUnder, Put, Cut;
    var room, controller := (i: Id) => home(i).room, (i: Id) => home(i).replyTo;
    PutFiled(home, g.clients, room, e.c);
    PutFiled(home, g.members, controller, e.c);
    CutFiled(home, g.clients, room, e.c.room, e.c.id);
    CutFiled(home, g.members, controller, e.c.replyTo, e.c.id);
    assert FiledUnder(home, Enact(g, e).clients, room) && FiledUnder(home, Enact(g, e).members, controller);
  }

  lemma OthersUntouched(home: Id -> Client, g: Registry, e: Event, i: Id)
    requires Enabled(g, e) && i != e.c.id
    ensures var g' := Enact(g, e);
      && InRoomHash(home, g', i) == InRoomHash(home, g, i) && InControllerHash(home, g', i) == InControllerHash(home, g, i)
      && (i in g'.torn <==> i in g.torn) && (Idle(g', i) <==> Idle(g, i))
      && (!Idle(g, i) ==> g'.episodes[i] == g.episodes[i])
  {
  }

  /** What a write does to its own client. The client turns out torn exactly when the write ends an episode with the client listed in one
      hash only. */
  lemma OwnWrite(home: Id -> Client, g: Registry, e: Event)
    requires home(e.c.id) == e.c && Enabled(g, e) && Tracked(home, g, e.c.id) && e.c.id !in g.torn
    ensures var g' := Enact(g, e);
      && Tracked(home, g', e.c.id)
      && (e.c.id in g'.torn <==> Idle(g', e.c.id) && !Paired(home, g', e.c.id))
  {
    var i, o, g' := e.c.id, EpisodeOf(g, e.c), Enact(g, e);
    assert InRoomHash(home, g, i) == Outcome(o.room, o.listed);
    assert InControllerHash(home, g, i) == Outcome(o.controller, o.listed);
    var o' := Continue(o, e);
    assert InRoomHash(home, g', i) == Outcome(o'.room, o'.listed);
    assert InControllerHash(home, g', i) == Outcome(o'.controller, o'.listed);
  }

  lemma SoundKeeps(home: Id -> Client, g: Registry, e: Event)
    requires Sound(home, g) && home(e.c.id) == e.c && Enabled(g, e)
    ensures Sound(home, Enact(g, e))
  {
    hide Filed, Enact, InRoomHash, InControllerHash;
    FiledKeeps(home, g, e);
    TornStays(g, e);
    forall i ensures Tracked(home, Enact(g, e), i) {
      assert Tracked(home, g, i);
      if i == e.c.id {
        if i !in g.torn { OwnWrite(home, g, e); }
      } else {
        OthersUntouched(home, g, e, i);
      }
    }
  }

  lemma TornStays(g: Registry, e: Event)
    requires Enabled(g, e)
    ensures g.torn <= Enact(g, e).torn
  {
  }

  lemma NobodySound(home: Id -> Client)
    ensures Sound(home, Nobody)
  {
  }

  // ----- Runs -----

  ghost predicate IsRun(home: Id -> Client, gs: seq<Registry>, es: seq<Event>) {
    && |gs| == |es| + 1 && gs[0] == Nobody
    && forall k :: 0 <= k < |es| ==> home(es[k].c.id) == es[k].c && Enabled(gs[k], es[k]) && gs[k + 1] == Enact(gs[k], es[k])
  }

  lemma {:induction false} RunSound(home: Id -> Client, gs: seq<Registry>, es: seq<Event>, n: nat)
    requires IsRun(home, gs, es) && n < |gs|
    ensures Sound(home, gs[n])
  {
    hide Sound, Enact, Enabled;
    if n == 0 {
      NobodySound(home);
    } else {
      RunSound(home, gs, es, n - 1);
      SoundKeeps(home, gs[n - 1], es[n - 1]);
      assert gs[n - 1 + 1] == gs[n];
    }
  }

  ghost predicate PairedSoFar(home: Id -> Client, gs: seq<Registry>, n: nat, i: Id)
    requires n < |gs|
  {
    forall m :: 0 <= m <= n && Idle(gs[m], i) ==> Paired(home, gs[m], i)
  }

  /** Over every interleaving of writes, lost or not: at all its idle moments a client is in its room's hash exactly when it is in its
      controller's hash, if and only if no episode of it ended with last writes that disagree. */
  lemma {:induction false} PairedIffNeverTorn(home: Id -> Client, gs: seq<Registry>, es: seq<Event>, n: nat, i: Id)
    requires IsRun(home, gs, es) && n < |gs|
    ensures PairedSoFar(home, gs, n, i) <==> i !in gs[n].torn
  {
    hide Enact, Enabled, Paired;
    RunSound(home, gs, es, n);
    assert Tracked(home, gs[n], i);
    if n > 0 {
      var g, e := gs[n - 1], es[n - 1];
      assert gs[n] == Enact(g, e) by { assert gs[n - 1 + 1] == gs[n]; }
      PairedIffNeverTorn(home, gs, es, n - 1, i);
      TornStays(g, e);
      if i !in g.torn {
        RunSound(home, gs, es, n - 1);
        assert Tracked(home, g, i);
        if i == e.c.id { OwnWrite(home, g, e); } else { OthersUntouched(home, g, e, i); }
      }
      assert PairedSoFar(home, gs, n, i) <==> PairedSoFar(home, gs, n - 1, i) && (Idle(gs[n], i) ==> Paired(home, gs[n], i));
    }
  }

  // ----- Clients whose calls are answered -----

  /** An answered write of client i, with no token of i beside another token or removal of i. Removals of i may overlap, as they
      do when several controllers clean up after a dead one. */
  predicate Orderly(g: Registry, e: Event, i: Id) {
    e.c.id == i ==>
      && e.fate.Good?
      && (e.TokenFirst? ==> Idle(g, i))
      && (e.LeaveFirst? ==> EpisodeOf(g, e.c).tokens == 0)
  }

  predicate OrderlyEpisode(o: Episode) {
    || (o.tokens == 1 && o.removals == 0 && o.room == Some(true) && o.controller == None)
    || (o.tokens == 0 && o.removals > 0 && o.room == Some(false) && (o.controller.Some? ==> !o.controller.value))
  }

  lemma {:induction false} OrderlyNeverTorn(home: Id -> Client, gs: seq<Registry>, es: seq<Event>, n: nat, i: Id)
    requires IsRun(home, gs, es) && n < |gs| && forall k :: 0 <= k < |es| ==> Orderly(gs[k], es[k], i)
    ensures i !in gs[n].torn && (!Idle(gs[n], i) ==> OrderlyEpisode(gs[n].episodes[i]))
  {
    if n > 0 {
      OrderlyNeverTorn(home, gs, es, n - 1, i);
      var g, e := gs[n - 1], es[n - 1];
      assert gs[n] == Enact(g, e) by { assert gs[n - 1 + 1] == gs[n]; }
      assert Orderly(g, e, i);
      if i != e.c.id { OthersUntouched(home, g, e, i); }
    }
  }

  /** Whatever happens to other clients: a client whose own calls are answered, and whose token does not overlap a removal, is in its room's hash
      exactly when it is in its controller's, whenever it has no token or removal in progress; and it is in no other hash. */
  lemma AlwaysRegistered(home: Id -> Client, gs: seq<Registry>, es: seq<Event>, n: nat, i: Id)
    requires IsRun(home, gs, es) && n < |gs| && forall k :: 0 <= k < |es| ==> Orderly(gs[k], es[k], i)
    requires Idle(gs[n], i)
    ensures Paired(home, gs[n], i)
    ensures forall r :: (i in Hash(gs[n].clients, r) ==> r == home(i).room) && (i in Hash(gs[n].members, r) ==> r == home(i).replyTo)
  {
    OrderlyNeverTorn(home, gs, es, n, i);
    RunSound(home, gs, es, n);
    assert Tracked(home, gs[n], i);
  }

  // ----- Single operations -----

  /** A token of an idle client keeps its hashes in step if and only if the client was listed already, or its first write was
      lost without effect, or both of its writes took effect and the first was answered. */
  lemma TokenPairsIff(home: Id -> Client, g: Registry, c: Client, first: Fate, second: Fate)
    requires Sound(home, g) && home(c.id) == c && Idle(g, c.id) && c.id !in g.torn
    ensures var g1 := Enact(g, TokenFirst(c, first));
      var g2 := if first.Good? then Enact(g1, TokenSecond(c, second)) else g1;
      && Idle(g2, c.id)
      && (Paired(home, g2, c.id) <==> InRoomHash(home, g, c.id) || first == Lost(false) || (first.Good? && second != Lost(false)))
  {
    var g1 := Enact(g, TokenFirst(c, first));
    assert Tracked(home, g, c.id);
    OwnWrite(home, g, TokenFirst(c, first));
    if first.Good? {
      OwnWrite(home, g1, TokenSecond(c, second));
    }
  }

  /** A removal of an idle client keeps its hashes in step if and only if the client was not listed, or both writes took effect, or
      neither did. */
  lemma RemovalPairsIff(home: Id -> Client, g: Registry, c: Client, first: Fate, second: Fate)
    requires Sound(home, g) && home(c.id) == c && Idle(g, c.id) && c.id !in g.torn
    ensures var g2 := Enact(Enact(g, LeaveFirst(c, first)), LeaveSecond(c, second));
      && Idle(g2, c.id)
      && (Paired(home, g2, c.id) <==> !InRoomHash(home, g, c.id) || TookEffect(first) == TookEffect(second))
  {
    var g1 := Enact(g, LeaveFirst(c, first));
    assert Tracked(home, g, c.id);
    OwnWrite(home, g, LeaveFirst(c, first));
    OwnWrite(home, g1, LeaveSecond(c, second));
  }

  /** A token whose addClientToEC is lost leaves the client in its room's hash and in no controller's, with nothing in progress. */
  lemma LostAddClientToEC(home: Id -> Client, c: Client) returns (gs: seq<Registry>, es: seq<Event>)
    requires home(c.id) == c
    ensures IsRun(home, gs, es) && es == [TokenFirst(c, Good), TokenSecond(c, Lost(false))]
    ensures var g := gs[2]; Idle(g, c.id) && InRoomHash(home, g, c.id) && forall m :: c.id !in Hash(g.members, m)
  {
    es := [TokenFirst(c, Good), TokenSecond(c, Lost(false))];
    var g1 := Enact(Nobody, es[0]);
    gs := [Nobody, g1, Enact(g1, es[1])];
  }

  /** A removal that runs between the two writes of a token leaves the client in its controller's hash only. */
  lemma TokenAroundRemoval(home: Id -> Client, c: Client) returns (gs: seq<Registry>, es: seq<Event>)
    requires home(c.id) == c
    ensures IsRun(home, gs, es) && forall k :: 0 <= k < |es| ==> es[k].fate == Good
    ensures |gs| == 5 && Idle(gs[4], c.id) && !InRoomHash(home, gs[4], c.id) && InControllerHash(home, gs[4], c.id)
  {
    es := [TokenFirst(c, Good), LeaveFirst(c, Good), LeaveSecond(c, Good), TokenSecond(c, Good)];
    var g1 := Enact(Nobody, es[0]);
    var g2 := Enact(g1, es[1]);
    var g3 := Enact(g2, es[2]);
    gs := [Nobody, g1, g2, g3, Enact(g3, es[3])];
  }
}
