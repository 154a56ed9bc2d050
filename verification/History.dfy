/** Histories of the whole system: successful handlers of any controllers in any rooms, and single writes of tokens and removals, in any
    order. What they keep, and what is left of a client after its removal. */
module History {
  import opened RoomModel
  import opened Counting
  import opened Handlers
  import opened RoomSpec
  import opened FailureSafety
  import opened RoomInvariant
  import opened Completion
  import opened ClientHashes
  import opened RedisStore
  import opened Traces

  // ----- Rooms -----

  ghost predicate RoomFine(home: Id -> Client, r: Id, s: Shared) {
    Settled(home, s) && InRoom(home, r, s.room)
  }

  /** A publish or subscribe that succeeds leaves a record of its client. */
  lemma SpecAdds(h: Handler, room: Room, i: Id)
    requires Accepts(h, room) && Adds(h, i)
    ensures !GoneFrom(i, Spec(h, room))
  {
    if h.Publish? {
      assert Spec(h, room).pubs[h.stream].client == i;
    } else {
      assert Spec(h, room).subs[h.sid].client == i;
    }
  }

  // ----- Deeds -----

  /** A handler, with its result; one write of a token or a removal; a removal that did not get its lock; or a read outside the locks.
      `own` marks the deeds of the thread in view. */
  datatype Deed =
    | Handled(own: bool, r: Id, h: Handler, ok: bool)
    | Wrote(own: bool, e: Event)
    | Refused(own: bool, c: Client)
    | Read(own: bool, answered: bool)

  ghost predicate Does(home: Id -> Client, w: World, d: Deed, v: World) {
    match d
    case Handled(_, r, h, ok) =>
      && Known(home, h) && Fresh(h, SharedIn(w, r).room) && (!h.Answer? ==> h.c.room == r)
      && Reaches(h, SharedIn(w, r), Done(ok), SharedIn(v, r))
      && v.registry == w.registry && forall x :: x != r ==> SharedIn(v, x) == SharedIn(w, x)
    case Wrote(_, e) =>
      home(e.c.id) == e.c && Enabled(w.registry, e) && v == w.(registry := Enact(w.registry, e))
    case _ => v == w
  }

  ghost predicate Path(home: Id -> Client, ws: seq<World>, ds: seq<Deed>) {
    |ws| == |ds| + 1 && forall k :: 0 <= k < |ds| ==> Does(home, ws[k], ds[k], ws[k + 1])
  }

  /** No handler lost a call. */
  predicate Succeed(ds: seq<Deed>) {
    forall k :: 0 <= k < |ds| ==> Succeeds(ds[k])
  }

  predicate Succeeds(d: Deed) {
    d.Handled? ==> d.ok
  }

  lemma PathSnoc(home: Id -> Client, ws: seq<World>, ds: seq<Deed>, d: Deed, v: World)
    requires Path(home, ws, ds) && Does(home, ws[|ds|], d, v)
    ensures Path(home, ws + [v], ds + [d])
  {
    hide Does;
    var us, es := ws + [v], ds + [d];
    forall k | 0 <= k < |es| ensures Does(home, us[k], es[k], us[k + 1]) {
      if k < |ds| { assert Does(home, ws[k], ds[k], ws[k + 1]); }
    }
  }

  lemma PathWrites(home: Id -> Client, ws: seq<World>, ds: seq<Deed>, own: bool, e: Event, v: World)
    requires Path(home, ws, ds) && home(e.c.id) == e.c
    requires var w := ws[|ds|]; Enabled(w.registry, e) && v == w.(registry := Enact(w.registry, e))
    ensures Path(home, ws + [v], ds + [Wrote(own, e)])
  {
    hide Reaches, Known, Fresh, Enact, Enabled;
    assert Does(home, ws[|ds|], Wrote(own, e), v);
    PathSnoc(home, ws, ds, Wrote(own, e), v);
  }

  lemma PathIdle(home: Id -> Client, ws: seq<World>, ds: seq<Deed>, d: Deed)
    requires Path(home, ws, ds) && (d.Refused? || d.Read?)
    ensures Path(home, ws + [ws[|ds|]], ds + [d])
  {
    hide Reaches, Known, Fresh, Enact, Enabled;
    PathSnoc(home, ws, ds, d, ws[|ds|]);
  }

  lemma PathCloses(home: Id -> Client, ws: seq<World>, ds: seq<Deed>, c: Client, ok: bool, v: World)
    requires Path(home, ws, ds) && home(c.id) == c
    requires var w := ws[|ds|];
      && Reaches(Close(c), SharedIn(w, c.room), Done(ok), SharedIn(v, c.room)) && v.registry == w.registry
      && forall x :: x != c.room ==> SharedIn(v, x) == SharedIn(w, x)
    ensures Path(home, ws + [v], ds + [Handled(true, c.room, Close(c), ok)])
  {
    hide Reaches;
    var d := Handled(true, c.room, Close(c), ok);
    assert Does(home, ws[|ds|], d, v);
    PathSnoc(home, ws, ds, d, v);
  }

  // ----- Tokens and removals begun -----

  ghost predicate Begun(g: Registry, tokens: set<Client>, removals: set<Client>) {
    && (forall c :: c in tokens ==> EpisodeOf(g, c).tokens > 0)
    && (forall c :: c in removals ==> EpisodeOf(g, c).removals > 0)
  }

  lemma FirstWriteBegins(g: Registry, c: Client, fate: Fate)
    ensures Begun(Enact(g, TokenFirst(c, Good)), {c}, {})
    ensures Begun(Enact(g, LeaveFirst(c, fate)), {}, {c})
  {
  }

  // ----- Everything stays in order -----

  ghost predicate AllFine(home: Id -> Client, w: World) {
    Sound(home, w.registry) && forall r :: RoomFine(home, r, SharedIn(w, r))
  }

  lemma HandledMeetsSpec(home: Id -> Client, w: World, d: Deed, v: World)
    requires AllFine(home, w) && d.Handled? && d.ok && Does(home, w, d, v)
    ensures RoomFine(home, d.r, SharedIn(v, d.r)) && Accepts(d.h, SharedIn(w, d.r).room)
    ensures SharedIn(v, d.r).room == Spec(d.h, SharedIn(w, d.r).room)
  {
    var base, cur := SharedIn(w, d.r), SharedIn(v, d.r);
    assert InRoom(home, d.r, cur.room) by { HandlerInRoom(home, d.r, d.h, base, Done(true), cur); }
    hide Reaches, Settled, Known, Fresh, Spec, Sound, Accepts, InRoom;
    assert RoomFine(home, d.r, base);
    SuccessMeetsSpec(home, d.h, base, cur);
  }

  lemma HandlerInRoom(home: Id -> Client, r: Id, h: Handler, base: Shared, l: Local, cur: Shared)
    requires Reaches(h, base, l, cur) && InRoom(home, r, base.room) && Known(home, h) && (!h.Answer? ==> h.c.room == r)
    ensures InRoom(home, r, cur.room)
  {
    hide Reaches, Only;
    HandlerOnly((x: Id) => home(x).room == r, h, base, l, cur);
  }

  lemma DoesFine(home: Id -> Client, w: World, d: Deed, v: World)
    requires AllFine(home, w) && Does(home, w, d, v) && Succeeds(d)
    ensures AllFine(home, v)
  {
    hide Reaches, RoomFine, Known, Fresh, Sound, Enact;
    if d.Handled? { HandledMeetsSpec(home, w, d, v); } else if d.Wrote? { SoundKeeps(home, w.registry, d.e); }
    forall x ensures RoomFine(home, x, SharedIn(v, x)) { assert RoomFine(home, x, SharedIn(w, x)); }
  }

  lemma {:induction false} PathFine(home: Id -> Client, ws: seq<World>, ds: seq<Deed>, n: nat)
    requires Path(home, ws, ds) && AllFine(home, ws[0]) && Succeed(ds) && n < |ws|
    ensures AllFine(home, ws[n])
  {
    hide AllFine, Does;
    if n > 0 {
      PathFine(home, ws, ds, n - 1);
      assert Does(home, ws[n - 1], ds[n - 1], ws[n - 1 + 1]);
      DoesFine(home, ws[n - 1], ds[n - 1], ws[n]);
    }
  }

  /** What holds whatever calls are lost: every record and every entry is in its client's place. */
  ghost predicate Placed(home: Id -> Client, w: World) {
    Filed(home, w.registry) && forall r :: InRoom(home, r, SharedIn(w, r).room)
  }

  /** Everything begins in order. */
  lemma EmptyFine(home: Id -> Client)
    ensures var w := World(map[], map[], Nobody); AllFine(home, w) && Placed(home, w)
  {
    hide Sound;
    var w := World(map[], map[], Nobody);
    NobodySound(home);
    NobodyFiled(home);
    forall r ensures RoomFine(home, r, SharedIn(w, r)) {
      assert SharedIn(w, r) == Shared(EmptyRoom, []) && MediaOf(EmptyRoom) == Media({}, {}, {}, {});
    }
    forall r ensures InRoom(home, r, SharedIn(w, r).room) { assert RoomFine(home, r, SharedIn(w, r)); }
  }

  lemma NobodyFiled(home: Id -> Client)
    ensures Filed(home, Nobody)
  {
  }

  lemma DoesPlaced(home: Id -> Client, w: World, d: Deed, v: World)
    requires Placed(home, w) && Does(home, w, d, v)
    ensures Placed(home, v)
  {
    hide Reaches, Known, Fresh, InRoom, Filed, Enact;
    if d.Handled? {
      assert InRoom(home, d.r, SharedIn(w, d.r).room);
      HandlerInRoom(home, d.r, d.h, SharedIn(w, d.r), Done(d.ok), SharedIn(v, d.r));
    } else if d.Wrote? {
      FiledKeeps(home, w.registry, d.e);
    }
    forall r ensures InRoom(home, r, SharedIn(v, r).room) { assert InRoom(home, r, SharedIn(w, r).room); }
  }

  lemma {:induction false} PathPlaced(home: Id -> Client, ws: seq<World>, ds: seq<Deed>, n: nat)
    requires Path(home, ws, ds) && Placed(home, ws[0]) && n < |ws|
    ensures Placed(home, ws[n])
  {
    hide Placed, Does;
    if n > 0 {
      PathPlaced(home, ws, ds, n - 1);
      assert Does(home, ws[n - 1], ds[n - 1], ws[n - 1 + 1]);
      DoesPlaced(home, ws[n - 1], ds[n - 1], ws[n]);
    }
  }

  lemma PlacedFiled(home: Id -> Client, w: World)
    requires Placed(home, w)
    ensures Filed(home, w.registry)
  {
  }

  /** Whatever calls were lost before. */
  ghost predicate AllSafe(w: World) {
    forall r :: Safe(SharedIn(w, r).room, {})
  }

  lemma {:induction false} PathSafe(home: Id -> Client, ws: seq<World>, ds: seq<Deed>, n: nat)
    requires Path(home, ws, ds) && AllSafe(ws[0]) && n < |ws|
    ensures AllSafe(ws[n])
  {
    hide Does, AllSafe;
    if n > 0 {
      PathSafe(home, ws, ds, n - 1);
      assert Does(home, ws[n - 1], ds[n - 1], ws[n - 1 + 1]);
      DoesSafe(home, ws[n - 1], ds[n - 1], ws[n]);
    }
  }

  lemma DoesSafe(home: Id -> Client, w: World, d: Deed, v: World)
    requires AllSafe(w) && Does(home, w, d, v)
    ensures AllSafe(v)
  {
    hide Safe, Reaches, Known, Fresh, Enact;
    if d.Handled? {
      ReachedSafe(d.h, SharedIn(w, d.r), Done(d.ok), SharedIn(v, d.r));
    }
    forall r ensures Safe(SharedIn(v, r).room, {}) { assert Safe(SharedIn(w, r).room, {}); }
  }

  // ----- What is left of a client -----

  ghost predicate NoStreams(w: World, i: Id) {
    forall r :: GoneFrom(i, SharedIn(w, r).room)
  }

  ghost predicate Unlisted(w: World, i: Id) {
    forall r :: i !in Hash(w.registry.clients, r)
  }

  /** Nothing is left of a client in any room. */
  ghost predicate Cleared(w: World, i: Id) {
    NoStreams(w, i) && Unlisted(w, i)
  }

  predicate Streams(d: Deed, i: Id) {
    d.Handled? && Adds(d.h, i)
  }

  predicate Enlists(d: Deed, i: Id) {
    d.Wrote? && d.e.TokenFirst? && TookEffect(d.e.fate) && d.e.c.id == i
  }

  /** The client's own token, publish or subscribe. */
  predicate Acts(d: Deed, i: Id) {
    Streams(d, i) || Enlists(d, i)
  }

  lemma DoesNoStreams(home: Id -> Client, w: World, d: Deed, v: World, i: Id)
    requires Does(home, w, d, v) && NoStreams(w, i) && !Streams(d, i)
    ensures NoStreams(v, i)
  {
    hide Reaches, Known, Fresh, Only, Enact;
    if d.Handled? {
      assert GoneFrom(i, SharedIn(w, d.r).room);
      HandlerOnly((x: Id) => x != i, d.h, SharedIn(w, d.r), Done(d.ok), SharedIn(v, d.r));
    }
    forall r ensures GoneFrom(i, SharedIn(v, r).room) { assert GoneFrom(i, SharedIn(w, r).room); }
  }

  lemma DoesStreams(home: Id -> Client, w: World, d: Deed, v: World, i: Id)
    requires AllFine(home, w) && Does(home, w, d, v) && Succeeds(d) && Streams(d, i)
    ensures !NoStreams(v, i)
  {
    hide Reaches, RoomFine, Known, Fresh, Sound, Spec, GoneFrom, Accepts;
    HandledMeetsSpec(home, w, d, v);
    SpecAdds(d.h, SharedIn(w, d.r).room, i);
  }

  lemma DoesLists(home: Id -> Client, w: World, d: Deed, v: World, i: Id)
    requires Does(home, w, d, v)
    ensures Enlists(d, i) ==> !Unlisted(v, i)
    ensures Unlisted(w, i) && !Enlists(d, i) ==> Unlisted(v, i)
  {
    hide Reaches, Known, Fresh;
    if d.Wrote? {
      assert Enlists(d, i) ==> i in Hash(v.registry.clients, d.e.c.room);
      forall r | Unlisted(w, i) && !Enlists(d, i) ensures i !in Hash(v.registry.clients, r) {
        assert i !in Hash(w.registry.clients, r);
      }
    }
  }

  /** A client of which nothing was left has a trace after a deed if and only if the deed is its own token, publish or subscribe. */
  lemma TraceIffActs(home: Id -> Client, w: World, d: Deed, v: World, i: Id)
    requires AllFine(home, w) && Does(home, w, d, v) && Succeeds(d) && Cleared(w, i)
    ensures Cleared(v, i) <==> !Acts(d, i)
  {
    hide Does, AllFine, NoStreams, Unlisted;
    if Streams(d, i) { DoesStreams(home, w, d, v, i); } else { DoesNoStreams(home, w, d, v, i); }
    DoesLists(home, w, d, v, i);
  }

  lemma {:induction false} PathNoStreams(home: Id -> Client, ws: seq<World>, ds: seq<Deed>, a: nat, n: nat, i: Id)
    requires Path(home, ws, ds) && a <= n < |ws| && NoStreams(ws[a], i)
    requires forall k :: a <= k < n ==> !Acts(ds[k], i)
    ensures NoStreams(ws[n], i)
  {
    hide Does, NoStreams;
    if a < n {
      PathNoStreams(home, ws, ds, a, n - 1, i);
      assert Does(home, ws[n - 1], ds[n - 1], ws[n - 1 + 1]);
      DoesNoStreams(home, ws[n - 1], ds[n - 1], ws[n], i);
    }
  }

  lemma {:induction false} PathUnlisted(home: Id -> Client, ws: seq<World>, ds: seq<Deed>, a: nat, n: nat, i: Id)
    requires Path(home, ws, ds) && a <= n < |ws| && Unlisted(ws[a], i)
    requires forall k :: a <= k < n ==> !Acts(ds[k], i)
    ensures Unlisted(ws[n], i)
  {
    hide Does, Unlisted;
    if a < n {
      PathUnlisted(home, ws, ds, a, n - 1, i);
      assert Does(home, ws[n - 1], ds[n - 1], ws[n - 1 + 1]);
      DoesLists(home, ws[n - 1], ds[n - 1], ws[n], i);
    }
  }

  ghost predicate ClearedUpTo(ws: seq<World>, n: nat, i: Id)
    requires n < |ws|
  {
    forall m :: 0 <= m <= n ==> Cleared(ws[m], i)
  }

  /** Over a whole history: a client stays without a trace through all of it if and only if none of its own tokens, publishes and
      subscribes happens in it. */
  lemma {:induction false} StaysClearedIff(home: Id -> Client, ws: seq<World>, ds: seq<Deed>, n: nat, i: Id)
    requires Path(home, ws, ds) && AllFine(home, ws[0]) && Succeed(ds) && n < |ws| && Cleared(ws[0], i)
    ensures ClearedUpTo(ws, n, i) <==> forall k :: 0 <= k < n ==> !Acts(ds[k], i)
  {
    hide Does, AllFine, Cleared, Acts;
    if n > 0 {
      StaysClearedIff(home, ws, ds, n - 1, i);
      assert ClearedUpTo(ws, n, i) <==> ClearedUpTo(ws, n - 1, i) && Cleared(ws[n], i);
      if ClearedUpTo(ws, n - 1, i) {
        PathFine(home, ws, ds, n - 1);
        assert Does(home, ws[n - 1], ds[n - 1], ws[n - 1 + 1]);
        TraceIffActs(home, ws[n - 1], ds[n - 1], ws[n], i);
      }
      assert (forall k :: 0 <= k < n ==> !Acts(ds[k], i)) <==> (forall k :: 0 <= k < n - 1 ==> !Acts(ds[k], i)) && !Acts(ds[n - 1], i);
    }
  }

  // ----- Controllers' hashes -----

  predicate Enrols(d: Deed, i: Id, ec: Id) {
    d.Wrote? && d.e.TokenSecond? && TookEffect(d.e.fate) && d.e.c.id == i && d.e.c.replyTo == ec
  }

  lemma DoesMembers(home: Id -> Client, w: World, d: Deed, v: World, i: Id, ec: Id)
    requires Does(home, w, d, v) && i !in Hash(w.registry.members, ec)
    ensures i in Hash(v.registry.members, ec) <==> Enrols(d, i, ec)
  {
    hide Reaches, Known, Fresh;
  }

  /** Who enters a controller's hash enters it by a token. */
  lemma {:induction false} PathMembers(home: Id -> Client, ws: seq<World>, ds: seq<Deed>, a: nat, n: nat, i: Id, ec: Id)
    requires Path(home, ws, ds) && a <= n < |ws|
    requires i !in Hash(ws[a].registry.members, ec) && i in Hash(ws[n].registry.members, ec)
    ensures exists k :: a <= k < n && Enrols(ds[k], i, ec)
  {
    hide Does, Hash, Enrols;
    if i in Hash(ws[n - 1].registry.members, ec) {
      PathMembers(home, ws, ds, a, n - 1, i, ec);
    } else {
      assert Does(home, ws[n - 1], ds[n - 1], ws[n - 1 + 1]);
      DoesMembers(home, ws[n - 1], ds[n - 1], ws[n], i, ec);
    }
  }

  /** An effective removal write of client i. */
  predicate Delists(d: Deed, i: Id) {
    d.Wrote? && (d.e.LeaveFirst? || d.e.LeaveSecond?) && TookEffect(d.e.fate) && d.e.c.id == i
  }

  /** Who is listed stays listed until a removal. */
  lemma {:induction false} PathListed(home: Id -> Client, ws: seq<World>, ds: seq<Deed>, a: nat, n: nat, i: Id, key: Id)
    requires Path(home, ws, ds) && a <= n < |ws| && forall k :: a <= k < n ==> !Delists(ds[k], i)
    ensures i in Hash(ws[a].registry.clients, key) ==> i in Hash(ws[n].registry.clients, key)
    ensures i in Hash(ws[a].registry.members, key) ==> i in Hash(ws[n].registry.members, key)
  {
    hide Does, Delists;
    if a < n {
      PathListed(home, ws, ds, a, n - 1, i, key);
      assert Does(home, ws[n - 1], ds[n - 1], ws[n - 1 + 1]);
      DoesListed(home, ws[n - 1], ds[n - 1], ws[n], i, key);
    }
  }

  lemma DoesListed(home: Id -> Client, w: World, d: Deed, v: World, i: Id, key: Id)
    requires Does(home, w, d, v) && !Delists(d, i)
    ensures i in Hash(w.registry.clients, key) ==> i in Hash(v.registry.clients, key)
    ensures i in Hash(w.registry.members, key) ==> i in Hash(v.registry.members, key)
  {
    hide Reaches, Known, Fresh;
  }

  /** An answered token. */
  ghost predicate Enrolled(ds: seq<Deed>, c: Client) {
    exists a, b :: 0 <= a < b < |ds| && ds[a] == Wrote(true, TokenFirst(c, Good)) && ds[b] == Wrote(true, TokenSecond(c, Good))
  }

  /** What a token does: its first write; if that is answered its second; if that is answered too, a read of the room's streams; and it is ok when all three
      are. */
  ghost predicate TokenTaken(ds: seq<Deed>, c: Client, ok: bool) {
    && |ds| > 0 && ds[0].Wrote? && ds[0].own && ds[0].e.TokenFirst? && ds[0].e.c == c
    && if ds[0].e.fate.Lost? then |ds| == 1 && !ok
       else exists b :: 0 < b < |ds| && TokenEnds(ds, c, ok, b)
  }

  ghost predicate TokenEnds(ds: seq<Deed>, c: Client, ok: bool, b: nat)
    requires b < |ds|
  {
    && ds[b].Wrote? && ds[b].own && ds[b].e.TokenSecond? && ds[b].e.c == c
    && if ds[b].e.fate.Lost? then b == |ds| - 1 && !ok else ds[|ds| - 1] == Read(true, ok)
  }

  /** After an answered token the client is in both hashes, unless a removal of it came meanwhile. */
  lemma EnrolledIsListed(home: Id -> Client, ws: seq<World>, ds: seq<Deed>, c: Client)
    requires Path(home, ws, ds) && Enrolled(ds, c) && forall k :: 0 <= k < |ds| ==> !Delists(ds[k], c.id)
    ensures c.id in Hash(ws[|ds|].registry.clients, c.room) && c.id in Hash(ws[|ds|].registry.members, c.replyTo)
  {
    var a, b :| 0 <= a < b < |ds| && ds[a] == Wrote(true, TokenFirst(c, Good)) && ds[b] == Wrote(true, TokenSecond(c, Good));
    TokenWrites(home, ws[a], ds[a], c, ws[a + 1]);
    TokenWrites(home, ws[b], ds[b], c, ws[b + 1]);
    hide Does, Delists;
    PathListed(home, ws, ds, a + 1, |ds|, c.id, c.room);
    PathListed(home, ws, ds, b + 1, |ds|, c.id, c.replyTo);
  }

  lemma TokenWrites(home: Id -> Client, w: World, d: Deed, c: Client, v: World)
    requires Does(home, w, d, v) && d.Wrote?
    ensures d.e == TokenFirst(c, Good) ==> c.id in Hash(v.registry.clients, c.room)
    ensures d.e == TokenSecond(c, Good) ==> c.id in Hash(v.registry.members, c.replyTo)
  {
  }

  // ----- Removals -----

  predicate Closes(d: Deed, c: Client) {
    d.Handled? && d.r == c.room && d.h == Close(c) && d.ok
  }

  predicate Unlists(d: Deed, c: Client) {
    d.Wrote? && d.e == LeaveFirst(c, Good)
  }

  predicate Leaves(d: Deed, c: Client) {
    d.Wrote? && d.e == LeaveSecond(c, Good)
  }

  lemma CloseClears(home: Id -> Client, w: World, d: Deed, c: Client, v: World)
    requires Placed(home, w) && home(c.id) == c && Does(home, w, d, v) && Closes(d, c)
    ensures NoStreams(v, c.id)
  {
    hide Reaches, Known, Fresh, Filed;
    CloseLeavesNothing(c, SharedIn(w, c.room), SharedIn(v, c.room));
    forall r ensures GoneFrom(c.id, SharedIn(v, r).room) {
      if r != c.room { assert InRoom(home, r, SharedIn(w, r).room); }
    }
  }

  lemma LeaveUnlists(home: Id -> Client, w: World, d: Deed, c: Client, v: World)
    requires Filed(home, w.registry) && Does(home, w, d, v) && Unlists(d, c)
    ensures Unlisted(v, c.id)
  {
    hide Reaches;
    forall r ensures c.id !in Hash(v.registry.clients, r) {
      assert c.id in Hash(w.registry.clients, r) ==> r == c.room;
    }
  }

  lemma LeaveEnds(home: Id -> Client, w: World, d: Deed, c: Client, v: World)
    requires Does(home, w, d, v) && Leaves(d, c)
    ensures c.id !in Hash(v.registry.members, c.replyTo)
  {
    hide Reaches;
  }

  ghost predicate RemovedAt(ds: seq<Deed>, c: Client, a: nat, b: nat, e: nat) {
    a < b < e < |ds| && Closes(ds[a], c) && Unlists(ds[b], c) && Leaves(ds[e], c)
  }

  /** A whole removal of a client, with anything in between. */
  ghost predicate Removed(ds: seq<Deed>, c: Client) {
    exists a: nat, b: nat, e: nat :: RemovedAt(ds, c, a, b, e)
  }

  /** The three deeds of a removal that got through its locked section: its close, with result `done`, and then its two writes, whatever their
      fates; it is `ok` when all three are. */
  ghost predicate EndsAt(ds: seq<Deed>, c: Client, done: bool, ok: bool, a: nat, b: nat, e: nat) {
    && a < b < e < |ds| && ds[a] == Handled(true, c.room, Close(c), done)
    && ds[b].Wrote? && ds[b].own && ds[b].e.LeaveFirst? && ds[b].e.c == c
    && ds[e].Wrote? && ds[e].own && ds[e].e.LeaveSecond? && ds[e].e.c == c
    && (ok <==> done && ds[b].e.fate.Good? && ds[e].e.fate.Good?)
  }

  /** A removal that did not: the lock was refused, or its close failed; and it wrote nothing. */
  ghost predicate StopsAt(ds: seq<Deed>, c: Client, n: nat, m: nat, a: nat) {
    && n <= a < m <= |ds| && (ds[a] == Refused(true, c) || ds[a] == Handled(true, c.room, Close(c), false))
    && forall k :: n <= k < m ==> !(ds[k].own && ds[k].Wrote?)
  }

  /** What the thread in view did about the removal of a client between positions n and m of its history. */
  ghost predicate Attempted(ds: seq<Deed>, n: nat, m: nat, c: Client, done: bool, ok: bool, finished: bool) {
    if finished then exists a: nat, b: nat, e: nat :: n <= a && e < m <= |ds| && EndsAt(ds, c, done, ok, a, b, e)
    else !done && !ok && exists a: nat :: StopsAt(ds, c, n, m, a)
  }

  ghost predicate Tried(ds: seq<Deed>, c: Client, ok: bool) {
    exists n: nat, m: nat, done, finished :: Attempted(ds, n, m, c, done, ok, finished)
  }

  lemma TriedStays(ds: seq<Deed>, es: seq<Deed>, c: Client, ok: bool)
    requires Tried(ds, c, ok) && ds <= es
    ensures Tried(es, c, ok)
  {
    var n: nat, m: nat, done, finished :| Attempted(ds, n, m, c, done, ok, finished);
    if finished {
      var a: nat, b: nat, e: nat :| n <= a && e < m <= |ds| && EndsAt(ds, c, done, ok, a, b, e);
      assert EndsAt(es, c, done, ok, a, b, e);
    } else {
      var a: nat :| StopsAt(ds, c, n, m, a);
      assert StopsAt(es, c, n, m, a);
    }
    assert Attempted(es, n, m, c, done, ok, finished);
  }

  /** A removal that is ok in all its deeds is a whole removal. */
  lemma TriedWell(ds: seq<Deed>, c: Client)
    requires Tried(ds, c, true)
    ensures Removed(ds, c)
  {
    var n: nat, m: nat, done, finished :| Attempted(ds, n, m, c, done, true, finished);
    var a: nat, b: nat, e: nat :| n <= a && e < m <= |ds| && EndsAt(ds, c, done, true, a, b, e);
    assert RemovedAt(ds, c, a, b, e);
  }

  /** The client acts after the locked section of a removal of it. */
  ghost predicate ActsAfterClose(ds: seq<Deed>, c: Client) {
    exists a, k :: 0 <= a < k < |ds| && Closes(ds[a], c) && Acts(ds[k], c.id)
  }

  /** The client completes a token after a removal of it. */
  ghost predicate EnrolsAfterLeave(ds: seq<Deed>, c: Client) {
    exists a, k :: 0 <= a < k < |ds| && Leaves(ds[a], c) && Enrols(ds[k], c.id, c.replyTo)
  }

  /** After its removal a client has a trace in some room only if it acted after the removal, and is in its controller's hash only if
      it completed a token after the removal. */
  lemma RemovedLeavesNothing(home: Id -> Client, ws: seq<World>, ds: seq<Deed>, c: Client)
    requires Path(home, ws, ds) && Placed(home, ws[0]) && home(c.id) == c && Removed(ds, c)
    ensures Cleared(ws[|ds|], c.id) || ActsAfterClose(ds, c)
    ensures c.id !in Hash(ws[|ds|].registry.members, c.replyTo) || EnrolsAfterLeave(ds, c)
  {
    hide Placed, Does, Hash, NoStreams, Unlisted, Acts, Enrols, Closes, Unlists, Leaves, Filed;
    var a: nat, b: nat, e: nat :| RemovedAt(ds, c, a, b, e);
    var n := |ds|;
    PathPlaced(home, ws, ds, a);
    assert Does(home, ws[a], ds[a], ws[a + 1]);
    CloseClears(home, ws[a], ds[a], c, ws[a + 1]);
    PathPlaced(home, ws, ds, b);
    assert Does(home, ws[b], ds[b], ws[b + 1]);
    assert Filed(home, ws[b].registry) by { PlacedFiled(home, ws[b]); }
    LeaveUnlists(home, ws[b], ds[b], c, ws[b + 1]);
    if !ActsAfterClose(ds, c) {
      PathNoStreams(home, ws, ds, a + 1, n, c.id);
      PathUnlisted(home, ws, ds, b + 1, n, c.id);
    }
    assert Does(home, ws[e], ds[e], ws[e + 1]);
    LeaveEnds(home, ws[e], ds[e], c, ws[e + 1]);
    if c.id in Hash(ws[n].registry.members, c.replyTo) {
      PathMembers(home, ws, ds, e + 1, n, c.id, c.replyTo);
    }
  }

  /** A client that was listed has a trace only if it acted after its removal; the controller's hash holds only clients
      that completed a token meanwhile, and of those listed before only ones that did so after their removal. */
  ghost predicate CleanedUp(home: Id -> Client, ws: seq<World>, ds: seq<Deed>, ec: Id)
    requires |ws| == |ds| + 1
  {
    var w, v := ws[0], ws[|ds|];
    && (forall i :: i in Hash(w.registry.members, ec) ==> Cleared(v, i) || ActsAfterClose(ds, home(i)))
    && (forall i :: i in Hash(v.registry.members, ec) ==>
          if i in Hash(w.registry.members, ec) then EnrolsAfterLeave(ds, home(i)) else EnrolsSometime(ds, i, ec))
  }

  ghost predicate EnrolsSometime(ds: seq<Deed>, i: Id, ec: Id) {
    exists k :: 0 <= k < |ds| && Enrols(ds[k], i, ec)
  }

  /** Removing every client that is listed under a controller cleans up after it, with any deeds of others in between and whatever calls those
      lose. */
  lemma CleanupComplete(home: Id -> Client, ws: seq<World>, ds: seq<Deed>, ec: Id)
    requires Path(home, ws, ds) && Placed(home, ws[0])
    requires forall i :: i in Hash(ws[0].registry.members, ec) ==> Removed(ds, home(i))
    ensures CleanedUp(home, ws, ds, ec)
  {
    PlacedFiled(home, ws[0]);
    hide Does, Placed, Enrols, Acts, NoStreams, Unlisted, Cleared, ActsAfterClose, EnrolsAfterLeave;
    forall i | i in Hash(ws[0].registry.members, ec)
      ensures Cleared(ws[|ds|], i) || ActsAfterClose(ds, home(i))
      ensures i in Hash(ws[|ds|].registry.members, ec) ==> EnrolsAfterLeave(ds, home(i))
    {
      assert home(i).id == i && home(i).replyTo == ec;
      RemovedLeavesNothing(home, ws, ds, home(i));
    }
    forall i | i in Hash(ws[|ds|].registry.members, ec) && i !in Hash(ws[0].registry.members, ec) ensures EnrolsSometime(ds, i, ec) {
      PathMembers(home, ws, ds, 0, |ds|, i, ec);
    }
  }

  /** No client of the controller acts, and nobody completes a token under it. */
  ghost predicate NoneActs(ws: seq<World>, ds: seq<Deed>, ec: Id)
    requires |ws| > 0
  {
    forall k, i :: 0 <= k < |ds| ==> !Enrols(ds[k], i, ec) && (i in Hash(ws[0].registry.members, ec) ==> !Acts(ds[k], i))
  }

  /** With its clients gone quiet, nothing is left of a dead controller. */
  lemma CleanupEmpties(home: Id -> Client, ws: seq<World>, ds: seq<Deed>, ec: Id)
    requires |ws| == |ds| + 1 && CleanedUp(home, ws, ds, ec) && NoneActs(ws, ds, ec) && Filed(home, ws[0].registry)
    ensures Hash(ws[|ds|].registry.members, ec) == map[]
    ensures forall i :: i in Hash(ws[0].registry.members, ec) ==> Cleared(ws[|ds|], i)
  {
    hide Enrols, Acts, Cleared, Closes, Leaves;
    var m := Hash(ws[|ds|].registry.members, ec);
    forall i | i in Hash(ws[0].registry.members, ec) ensures i !in m && Cleared(ws[|ds|], i) {
      assert home(i).id == i && home(i).replyTo == ec;
    }
    assert forall i :: i !in m;
  }

  lemma PathNone(home: Id -> Client, w: World)
    ensures Path(home, [w], [])
  {
  }

  /** A listing of a controller's hash gives the clients as they are at home. */
  lemma FiledListing(home: Id -> Client, g: Registry, ec: Id, xs: seq<Client>, ids: seq<Id>)
    requires Filed(home, g) && Lists(ids, xs, Hash(g.members, ec))
    ensures forall a :: 0 <= a < |xs| ==> xs[a] == home(ids[a]) && xs[a].id == ids[a] && ids[a] in Hash(g.members, ec)
    ensures |ids| == |xs| && forall i :: i in Hash(g.members, ec) ==> i in ids
  {
  }

  lemma ListedRemoved(home: Id -> Client, g: Registry, ds: seq<Deed>, ec: Id, xs: seq<Client>, ids: seq<Id>)
    requires Filed(home, g) && Lists(ids, xs, Hash(g.members, ec))
    requires forall a :: 0 <= a < |xs| ==> Tried(ds, xs[a], true) || Tried(ds, xs[a], false)
    ensures forall i :: i in Hash(g.members, ec) ==> Tried(ds, home(i), true) || Tried(ds, home(i), false)
    ensures (forall a :: 0 <= a < |xs| ==> Tried(ds, xs[a], true)) ==>
      forall i :: i in Hash(g.members, ec) ==> Tried(ds, home(i), true) && Removed(ds, home(i))
    ensures (exists a :: 0 <= a < |xs| && Tried(ds, xs[a], false)) ==> exists i :: i in Hash(g.members, ec) && Tried(ds, home(i), false)
  {
    FiledListing(home, g, ec, xs, ids);
    hide Removed, Filed, Tried;
    forall i | i in Hash(g.members, ec)
      ensures Tried(ds, home(i), true) || Tried(ds, home(i), false)
      ensures (forall a :: 0 <= a < |xs| ==> Tried(ds, xs[a], true)) ==> Tried(ds, home(i), true) && Removed(ds, home(i))
    {
      var a :| 0 <= a < |ids| && ids[a] == i;
      assert xs[a] == home(i);
      if Tried(ds, xs[a], true) { TriedWell(ds, xs[a]); }
    }
    if exists a :: 0 <= a < |xs| && Tried(ds, xs[a], false) {
      var a :| 0 <= a < |xs| && Tried(ds, xs[a], false);
      assert ids[a] in Hash(g.members, ec) && Tried(ds, home(ids[a]), false);
    }
  }

  lemma AfterCleanup(home: Id -> Client, ws: seq<World>, ds: seq<Deed>, ec: Id, ok: bool)
    requires Path(home, ws, ds) && Placed(home, ws[0])
    requires ok ==> forall i :: i in Hash(ws[0].registry.members, ec) ==> Removed(ds, home(i))
    ensures AllSafe(ws[0]) ==> AllSafe(ws[|ds|])
    ensures AllFine(home, ws[0]) && Succeed(ds) ==> AllFine(home, ws[|ds|])
    ensures ok ==> CleanedUp(home, ws, ds, ec)
    ensures ok && NoneActs(ws, ds, ec) ==>
      && Hash(ws[|ds|].registry.members, ec) == map[]
      && forall i :: i in Hash(ws[0].registry.members, ec) ==> Cleared(ws[|ds|], i)
  {
    PlacedFiled(home, ws[0]);
    PathLength(home, ws, ds);
    hide Path, AllSafe, AllFine, Succeed, CleanedUp, NoneActs, Cleared, Removed, Filed, Placed;
    if AllSafe(ws[0]) { PathSafe(home, ws, ds, |ds|); }
    if AllFine(home, ws[0]) && Succeed(ds) { PathFine(home, ws, ds, |ds|); }
    if ok {
      CleanupComplete(home, ws, ds, ec);
      if NoneActs(ws, ds, ec) { CleanupEmpties(home, ws, ds, ec); }
    }
  }

  lemma PathLength(home: Id -> Client, ws: seq<World>, ds: seq<Deed>)
    requires Path(home, ws, ds)
    ensures |ws| == |ds| + 1
  {
  }
}
