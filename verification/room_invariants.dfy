/** What every step on the registry keeps: references, counts, tombstones, and the agreement between
    slots and sessions. */
module RoomInvariants {
  import opened Options
  import opened LruSpec
  import opened Tombstone
  import opened RoomModel
  import opened RoomRules

  /** The host tokens of the creations so far. */
  type Births = set<Token>

  /** The room would issue its host the token that the creation it descends from issued. */
  ghost predicate Born(births: Births, room: Room) {
    TokenFor(room, Host) in births
  }

  ghost predicate TokenBorn(births: Births, t: Token) {
    TokenDated(t) && t.(role := Host) in births
  }

  /** A connection held by a room's slot belongs to a session attached to exactly that room and role. */
  ghost predicate Agrees(sessions: map<Conn, Attached>, ref: nat, room: Room) {
    && (room.host.conn.Some? ==>
          room.host.conn.value in sessions && sessions[room.host.conn.value] == Attached(ref, Host))
    && (room.guest.conn.Some? ==>
          room.guest.conn.value in sessions && sessions[room.guest.conn.value] == Attached(ref, Guest))
  }

  /** An attached session holds its slot, or has been closed. */
  ghost predicate HeldOrClosing(heap: seq<Room>, closing: map<Conn, CloseCode>, c: Conn, a: Attached) {
    a.ref < |heap| && (heap[a.ref].At(a.role).conn == Some(c) || c in closing)
  }

  ghost predicate Fits(cfg: Config, births: Births, heap: seq<Room>, sessions: map<Conn, Attached>) {
    forall ref :: 0 <= ref < |heap| ==>
      RoomOk(cfg, heap[ref]) && Born(births, heap[ref]) && Agrees(sessions, ref, heap[ref])
  }

  ghost predicate Held(heap: seq<Room>, sessions: map<Conn, Attached>, closing: map<Conn, CloseCode>) {
    forall c :: c in sessions ==> HeldOrClosing(heap, closing, c, sessions[c])
  }

  /** The registered ids are those of their rooms, and are counted. */
  ghost predicate Numbered(heap: seq<Room>, rooms: map<string, nat>, roomsGlobal: int) {
    && roomsGlobal == |rooms|
    && forall id :: id in rooms ==> rooms[id] < |heap| && heap[rooms[id]].roomID == id
  }

  ghost predicate Core(cfg: Config, births: Births, st: State)
    ensures Core(cfg, births, st) ==> Linked(st)
  {
    && Numbered(st.heap, st.rooms, st.roomsGlobal)
    && Fits(cfg, births, st.heap, st.sessions)
    && Held(st.heap, st.sessions, st.closing)
  }

  /** No registered id has a resident tombstone. */
  ghost predicate Entombed(cfg: Config, tomb: seq<(string, Entry)>, ids: set<string>) {
    && DistinctKeys(tomb) && |tomb| <= cfg.tombstoneCapacity
    && forall id :: id in ids ==> !Resident(tomb, id)
  }

  ghost predicate Inv(cfg: Config, births: Births, st: State) {
    Core(cfg, births, st) && Entombed(cfg, st.tomb, st.rooms.Keys)
  }

  // ---------------------------------------------------------------- tombstones

  lemma AskKeeps(cfg: Config, tomb: seq<(string, Entry)>, ids: set<string>, id: string, now: int)
    requires Entombed(cfg, tomb, ids)
    ensures var (asked, found) := Ask(tomb, id, now, cfg.tombstoneTtl);
            Entombed(cfg, asked, ids) && (found.None? ==> Entombed(cfg, asked, ids + {id}))
  {
    hide Lookup, Drop, Ask, DistinctKeys;
    AskForgets(tomb, id, now, cfg.tombstoneTtl);
    AskLength(tomb, id, now, cfg.tombstoneTtl);
  }

  lemma AskLength(tomb: seq<(string, Entry)>, id: string, now: int, ttl: int)
    requires DistinctKeys(tomb)
    ensures |Ask(tomb, id, now, ttl).0| <= |tomb|
  {
    hide Drop, Lookup;
    DropDistinct(tomb, id);
  }

  lemma {:induction false} GenerateKeeps(cfg: Config, tomb: seq<(string, Entry)>, ids: set<string>,
                                         candidates: seq<string>, now: int)
    requires Entombed(cfg, tomb, ids)
    ensures var (asked, id) := Generate(ids, tomb, candidates, now, cfg.tombstoneTtl);
            && Entombed(cfg, asked, ids)
            && (id.Some? ==> id.value in candidates && id.value !in ids && Entombed(cfg, asked, ids + {id.value}))
    decreases |candidates|
  {
    hide Entombed, Ask;
    if candidates != [] {
      if candidates[0] in ids {
        GenerateKeeps(cfg, tomb, ids, candidates[1..], now);
      } else {
        var (asked, found) := Ask(tomb, candidates[0], now, cfg.tombstoneTtl);
        AskKeeps(cfg, tomb, ids, candidates[0], now);
        if found.Some? {
          GenerateKeeps(cfg, asked, ids, candidates[1..], now);
        }
      }
    }
  }

  lemma FewerEntombed(cfg: Config, tomb: seq<(string, Entry)>, ids: set<string>, fewer: set<string>)
    requires Entombed(cfg, tomb, ids) && fewer <= ids
    ensures Entombed(cfg, tomb, fewer)
  {
  }

  lemma BuryKeeps(cfg: Config, tomb: seq<(string, Entry)>, ids: set<string>, id: string, e: Entry)
    requires Entombed(cfg, tomb, ids)
    ensures var buried := Insert(tomb, id, e, cfg.tombstoneCapacity);
            Entombed(cfg, buried, ids - {id}) && Resident(buried, id)
  {
    hide Insert, Lookup, DistinctKeys;
    BuryMarks(tomb, id, e, cfg.tombstoneCapacity);
  }

  lemma SweepKeeps(cfg: Config, tomb: seq<(string, Entry)>, ids: set<string>, now: int)
    requires Entombed(cfg, tomb, ids)
    ensures Entombed(cfg, Live(tomb, now, cfg.tombstoneTtl), ids)
  {
    hide Live, Lookup;
    LiveLookup(tomb, now, cfg.tombstoneTtl);
  }

  // ---------------------------------------------------------------- the building blocks

  lemma AttachNewKeeps(cfg: Config, births: Births, st: State, c: Conn, role: Role, room: Room)
    requires Core(cfg, births, st) && c !in st.sessions && room.roomID !in st.rooms
    requires RoomOk(cfg, room) && Born(births, room)
    requires room.At(role).conn == Some(c) && room.At(role.Other()).conn.None?
    ensures Core(cfg, births, AttachNew(st, c, role, room))
  {
    hide RoomOk, Fits, Held, Numbered;
    NumberedMore(st.heap, st.rooms, st.roomsGlobal, room);
    FitsSession(cfg, births, st.heap, st.sessions, c, Attached(|st.heap|, role));
    FitsMore(cfg, births, st.heap, st.sessions[c := Attached(|st.heap|, role)], room);
    HeldMore(st.heap, st.sessions, st.closing, room);
    HeldAttach(st.heap + [room], st.sessions, st.closing, c, Attached(|st.heap|, role));
  }

  lemma NumberedMore(heap: seq<Room>, rooms: map<string, nat>, roomsGlobal: int, room: Room)
    requires Numbered(heap, rooms, roomsGlobal) && room.roomID !in rooms
    ensures Numbered(heap + [room], rooms[room.roomID := |heap|], roomsGlobal + 1)
  {
    OneMoreKey(rooms, room.roomID, |heap|);
    var more := rooms[room.roomID := |heap|];
    forall id | id in more
      ensures more[id] < |heap + [room]| && (heap + [room])[more[id]].roomID == id
    {
      assert id != room.roomID ==> id in rooms && more[id] == rooms[id];
    }
  }

  lemma OneMoreKey(rooms: map<string, nat>, id: string, ref: nat)
    requires id !in rooms
    ensures |rooms[id := ref]| == |rooms| + 1
  {
    assert rooms[id := ref].Keys == rooms.Keys + {id};
  }

  lemma FitsMore(cfg: Config, births: Births, heap: seq<Room>, sessions: map<Conn, Attached>, room: Room)
    requires Fits(cfg, births, heap, sessions)
    requires RoomOk(cfg, room) && Born(births, room) && Agrees(sessions, |heap|, room)
    ensures Fits(cfg, births, heap + [room], sessions)
  {
    hide RoomOk, Agrees;
  }

  lemma HeldMore(heap: seq<Room>, sessions: map<Conn, Attached>, closing: map<Conn, CloseCode>, room: Room)
    requires Held(heap, sessions, closing)
    ensures Held(heap + [room], sessions, closing)
  {
    forall d | d in sessions
      ensures HeldOrClosing(heap + [room], closing, d, sessions[d])
    {
      assert HeldOrClosing(heap, closing, d, sessions[d]);
    }
  }

  /** A new session does not disturb the slots of others. */
  lemma FitsSession(cfg: Config, births: Births, heap: seq<Room>, sessions: map<Conn, Attached>, c: Conn, a: Attached)
    requires Fits(cfg, births, heap, sessions) && c !in sessions
    ensures Fits(cfg, births, heap, sessions[c := a])
  {
    hide RoomOk;
    forall ref | 0 <= ref < |heap|
      ensures RoomOk(cfg, heap[ref]) && Born(births, heap[ref]) && Agrees(sessions[c := a], ref, heap[ref])
    {
      assert Agrees(sessions, ref, heap[ref]);
    }
  }

  lemma HeldAttach(heap: seq<Room>, sessions: map<Conn, Attached>, closing: map<Conn, CloseCode>, c: Conn, a: Attached)
    requires Held(heap, sessions, closing) && c !in sessions
    requires a.ref < |heap| && heap[a.ref].At(a.role).conn == Some(c)
    ensures Held(heap, sessions[c := a], closing - {c})
  {
    var more := sessions[c := a];
    forall d | d in more
      ensures HeldOrClosing(heap, closing - {c}, d, more[d])
    {
      assert d != c ==> HeldOrClosing(heap, closing, d, sessions[d]);
    }
  }

  lemma AttachAtKeeps(cfg: Config, births: Births, st: State, c: Conn, ref: nat, role: Role, room: Room)
    requires Core(cfg, births, st) && c !in st.sessions && ref < |st.heap|
    requires RoomOk(cfg, room) && SameRoom(st.heap[ref], room)
    requires room.At(role).conn == Some(c)
    requires room.At(role.Other()).conn == st.heap[ref].At(role.Other()).conn
    ensures Core(cfg, births, AttachAt(st, c, ref, role, room))
  {
    hide RoomOk, Fits, Held, Numbered;
    var a := Attached(ref, role);
    NumberedPut(st.heap, st.rooms, st.roomsGlobal, ref, room);
    FitsAt(cfg, births, st.heap, st.sessions, ref);
    FitsSession(cfg, births, st.heap, st.sessions, c, a);
    FitsPut(cfg, births, st.heap, st.sessions[c := a], ref, room);
    HeldReplace(st.heap, st.sessions, st.closing, ref, role, room);
    HeldAttach(st.heap[ref := room], st.sessions, WithClosing(st.closing, st.heap[ref].At(role), Replaced), c, a);
  }

  lemma NumberedPut(heap: seq<Room>, rooms: map<string, nat>, roomsGlobal: int, ref: nat, room: Room)
    requires Numbered(heap, rooms, roomsGlobal) && ref < |heap| && SameRoom(heap[ref], room)
    ensures Numbered(heap[ref := room], rooms, roomsGlobal)
  {
  }

  lemma FitsAt(cfg: Config, births: Births, heap: seq<Room>, sessions: map<Conn, Attached>, ref: nat)
    requires Fits(cfg, births, heap, sessions) && ref < |heap|
    ensures RoomOk(cfg, heap[ref]) && Born(births, heap[ref]) && Agrees(sessions, ref, heap[ref])
  {
    hide RoomOk, Agrees;
  }

  lemma FitsPut(cfg: Config, births: Births, heap: seq<Room>, sessions: map<Conn, Attached>, ref: nat, room: Room)
    requires Fits(cfg, births, heap, sessions) && ref < |heap|
    requires RoomOk(cfg, room) && Born(births, room) && Agrees(sessions, ref, room)
    ensures Fits(cfg, births, heap[ref := room], sessions)
  {
    hide RoomOk, Agrees;
  }

  /** Whoever loses the slot is closed. */
  lemma HeldReplace(heap: seq<Room>, sessions: map<Conn, Attached>, closing: map<Conn, CloseCode>,
                    ref: nat, role: Role, room: Room)
    requires Held(heap, sessions, closing) && ref < |heap|
    requires room.At(role.Other()).conn == heap[ref].At(role.Other()).conn
    ensures Held(heap[ref := room], sessions, WithClosing(closing, heap[ref].At(role), Replaced))
  {
    var closing' := WithClosing(closing, heap[ref].At(role), Replaced);
    forall d | d in sessions
      ensures HeldOrClosing(heap[ref := room], closing', d, sessions[d])
    {
      assert HeldOrClosing(heap, closing, d, sessions[d]);
    }
  }

  ghost predicate SameConns(room: Room, room': Room) {
    room'.host.conn == room.host.conn && room'.guest.conn == room.guest.conn
  }

  lemma HeldPut(heap: seq<Room>, sessions: map<Conn, Attached>, closing: map<Conn, CloseCode>, ref: nat, room: Room)
    requires Held(heap, sessions, closing) && ref < |heap| && SameConns(heap[ref], room)
    ensures Held(heap[ref := room], sessions, closing)
  {
    forall d | d in sessions
      ensures HeldOrClosing(heap[ref := room], closing, d, sessions[d])
    {
      assert HeldOrClosing(heap, closing, d, sessions[d]);
    }
  }

  lemma SetRoomKeeps(cfg: Config, births: Births, st: State, ref: nat, room: Room)
    requires Core(cfg, births, st) && ref < |st.heap|
    requires RoomOk(cfg, room) && SameRoom(st.heap[ref], room) && SameConns(st.heap[ref], room)
    ensures Core(cfg, births, SetRoom(st, ref, room))
  {
    hide RoomOk, Fits, Held, Numbered;
    NumberedPut(st.heap, st.rooms, st.roomsGlobal, ref, room);
    FitsAt(cfg, births, st.heap, st.sessions, ref);
    FitsPut(cfg, births, st.heap, st.sessions, ref, room);
    HeldPut(st.heap, st.sessions, st.closing, ref, room);
  }

  lemma RemoveKeeps(cfg: Config, births: Births, st: State, id: string)
    requires Core(cfg, births, st)
    ensures Core(cfg, births, Remove(st, id)) && Remove(st, id).rooms.Keys == st.rooms.Keys - {id}
    ensures Remove(st, id) == st.(rooms := Remove(st, id).rooms, roomsGlobal := Remove(st, id).roomsGlobal)
  {
    hide Fits, Held, Numbered;
    NumberedLess(st.heap, st.rooms, st.roomsGlobal, id);
  }

  lemma NumberedLess(heap: seq<Room>, rooms: map<string, nat>, roomsGlobal: int, id: string)
    requires Numbered(heap, rooms, roomsGlobal)
    ensures (rooms - {id}).Keys == rooms.Keys - {id}
    ensures if id in rooms then Numbered(heap, rooms - {id}, roomsGlobal - 1) else rooms.Keys - {id} == rooms.Keys
  {
    if id in rooms {
      assert |rooms.Keys - {id}| == |rooms.Keys| - 1;
    }
  }

  /** Letting go of both connections: they stay attached as sessions, and are closed. */
  lemma HeldCleared(heap: seq<Room>, sessions: map<Conn, Attached>, closing: map<Conn, CloseCode>,
                    ref: nat, msg: Msg, code: CloseCode)
    requires Held(heap, sessions, closing) && ref < |heap|
    ensures Held(heap[ref := ClearIn(heap[ref], msg)], sessions,
                 WithClosing(WithClosing(closing, heap[ref].host, code), heap[ref].guest, code))
  {
    var heap' := heap[ref := ClearIn(heap[ref], msg)];
    var closing' := WithClosing(WithClosing(closing, heap[ref].host, code), heap[ref].guest, code);
    forall d | d in sessions
      ensures HeldOrClosing(heap', closing', d, sessions[d])
    {
      assert HeldOrClosing(heap, closing, d, sessions[d]);
    }
  }

  lemma EvictKeeps(cfg: Config, births: Births, st: State, ref: nat, msg: Msg, code: CloseCode)
    requires Core(cfg, births, st) && ref < |st.heap|
    ensures var st' := Evict(st, ref, msg, code);
            && Core(cfg, births, st')
            && st'.rooms.Keys == st.rooms.Keys - {st.heap[ref].roomID} && st'.tomb == st.tomb
            && st'.heap == st.heap[ref := ClearIn(st.heap[ref], msg)] && st'.sessions == st.sessions
  {
    hide RoomOk, Fits, Held, Numbered, Remove;
    var room := st.heap[ref];
    FitsAt(cfg, births, st.heap, st.sessions, ref);
    ClearKeepsRoom(cfg, room, msg);
    NumberedPut(st.heap, st.rooms, st.roomsGlobal, ref, ClearIn(room, msg));
    FitsPut(cfg, births, st.heap, st.sessions, ref, ClearIn(room, msg));
    HeldCleared(st.heap, st.sessions, st.closing, ref, msg, code);
    RemoveKeeps(cfg, births,
                SetRoom(st, ref, ClearIn(room, msg))
                .(closing := WithClosing(WithClosing(st.closing, room.host, code), room.guest, code)),
                room.roomID);
  }

  lemma CloseKeeps(cfg: Config, births: Births, st: State, ref: nat, reason: Reason, now: int)
    requires Inv(cfg, births, st) && ref < |st.heap|
    ensures var st' := CloseAt(cfg, st, ref, reason, now);
            && Inv(cfg, births, st')
            && Resident(st'.tomb, st.heap[ref].roomID) && st.heap[ref].roomID !in st'.rooms
  {
    hide Fits, Held, Numbered, Entombed, Insert, Resident, Evict;
    var id := st.heap[ref].roomID;
    BuryKeeps(cfg, st.tomb, st.rooms.Keys, id, Entry(now, reason));
    EvictKeeps(cfg, births, Bury(cfg, st, id, reason, now), ref, RoomClosedMsg(reason), ClosedRoom);
  }

  // ---------------------------------------------------------------- the handlers

  lemma CreateKeeps(cfg: Config, births: Births, st: State, c: Conn, q: CreateRequest, now: int)
    requires Inv(cfg, births, st)
    ensures var (st', reply) := CreateStep(cfg, st, c, q, now);
            Inv(cfg, if reply.Created? then births + {reply.token} else births, st')
            && (reply.Created? ==> TokenDated(reply.token) && reply.token.role.Host?
                                   && reply.token.roomID == reply.roomID && reply.token.origin == now
                                   && Protects(reply.token.password, q.password))
  {
    hide Fits, Held, Numbered, Entombed, Generate, RoomOk, TokenDated;
    GenerateKeeps(cfg, st.tomb, st.rooms.Keys, FirstTries(q.candidates), now);
    var (st', reply) := CreateStep(cfg, st, c, q, now);
    if reply.Created? {
      var id := reply.roomID;
      var tomb := Generate(st.rooms.Keys, st.tomb, FirstTries(q.candidates), now, cfg.tombstoneTtl).0;
      var empty := NewRoom(cfg, id, now, now, OptionalPassword(q.password), q.ip, now);
      var room := HostIn(empty, c, q.epoch);
      NewRoomOk(cfg, id, now, now, OptionalPassword(q.password), q.ip, now);
      HostKeepsRoom(cfg, empty, c, q.epoch);
      TokenCarries(cfg, room, Host);
      MoreBirths(cfg, births, st.heap, st.sessions, reply.token);
      AttachNewKeeps(cfg, births + {reply.token}, st.(tomb := tomb), c, Host, room);
      assert st'.rooms.Keys == st.rooms.Keys + {id};
    }
  }

  lemma HostKeepsRoom(cfg: Config, room: Room, c: Conn, epoch: string)
    requires RoomOk(cfg, room) && !BadEpoch(epoch)
    ensures RoomOk(cfg, HostIn(room, c, epoch))
  {
    hide Bytes;
  }

  lemma TokenCarries(cfg: Config, room: Room, role: Role)
    requires RoomOk(cfg, room)
    ensures TokenDated(TokenFor(room, role))
  {
    hide Accounted;
    TokenCarriesOrigin(cfg, room, role);
  }

  lemma MoreBirths(cfg: Config, births: Births, heap: seq<Room>, sessions: map<Conn, Attached>, birth: Token)
    requires Fits(cfg, births, heap, sessions)
    ensures Fits(cfg, births + {birth}, heap, sessions)
  {
    hide RoomOk, Agrees;
  }

  lemma JoinKeeps(cfg: Config, births: Births, st: State, c: Conn, q: JoinRequest, now: int)
    requires Inv(cfg, births, st)
    ensures var (st', reply) := JoinStep(cfg, st, c, q, now);
            Inv(cfg, births, st') && (reply.Joined? ==> TokenBorn(births, reply.token))
  {
    hide Fits, Held, Numbered, Entombed, TokenDated, EnterStep, Ask;
    InvLinked(cfg, births, st);
    if c !in st.sessions && q.id.Some? && !BadEpoch(q.epoch) {
      var (tomb, found) := Ask(st.tomb, q.id.value, now, cfg.tombstoneTtl);
      AskKeeps(cfg, st.tomb, st.rooms.Keys, q.id.value, now);
      if found.None? && q.id.value in st.rooms {
        EnterKeeps(cfg, births, st.(tomb := tomb), c, q, st.rooms[q.id.value], now);
      }
    }
  }

  lemma EnterKeeps(cfg: Config, births: Births, st: State, c: Conn, q: JoinRequest, ref: nat, now: int)
    requires Inv(cfg, births, st) && c !in st.sessions && ref < |st.heap| && !BadEpoch(q.epoch)
    ensures var (st', reply) := EnterStep(cfg, st, c, q, ref, now);
            Inv(cfg, births, st') && (reply.Joined? ==> TokenBorn(births, reply.token))
  {
    hide Fits, Held, Numbered, Entombed, RoomOk, TokenDated, CloseAt;
    var room := st.heap[ref];
    FitsAt(cfg, births, st.heap, st.sessions, ref);
    var tried := room.(passwordAttempts := room.passwordAttempts + 1);
    AttemptKeepsRoom(cfg, room);
    SetRoomKeeps(cfg, births, st, ref, tried);
    CloseKeeps(cfg, births, SetRoom(st, ref, tried), ref, PasswordLockout, now);
    JoinKeepsRoom(cfg, room, c, q.epoch);
    AttachAtKeeps(cfg, births, st, c, ref, Guest, JoinIn(room, c, q.epoch));
    TokenCarries(cfg, room, Guest);
  }

  lemma AttemptKeepsRoom(cfg: Config, room: Room)
    requires RoomOk(cfg, room)
    ensures RoomOk(cfg, room.(passwordAttempts := room.passwordAttempts + 1))
  {
    hide Bytes;
  }

  lemma RejoinKeeps(cfg: Config, births: Births, st: State, c: Conn, q: RejoinRequest, now: int)
    requires Inv(cfg, births, st)
    requires q.credential.Verified? ==> TokenBorn(births, q.credential.token)
    ensures Inv(cfg, births, RejoinStep(cfg, st, c, q, now).0)
  {
    hide Fits, Held, Entombed, RoomOk, TokenDated, RecreateStep, Ask, RejoinIn;
    if c !in st.sessions && q.credential.Verified? && !BadEpoch(q.epoch)
       && !TokenExpired(q.credential.token, now, cfg.rejoinTokenTtl) {
      var t := q.credential.token;
      var (tomb, found) := Ask(st.tomb, t.roomID, now, cfg.tombstoneTtl);
      AskKeeps(cfg, st.tomb, st.rooms.Keys, t.roomID, now);
      if found.None? && t.roomID !in st.rooms {
        RecreateKeeps(cfg, births, st.(tomb := tomb), c, q, t, now);
      } else if found.None? {
        var ref := st.rooms[t.roomID];
        FitsAt(cfg, births, st.heap, st.sessions, ref);
        RejoinKeepsRoom(cfg, st.heap[ref], t.role, c, q.epoch, false, now);
        RejoinConns(cfg, st.heap[ref], t.role, c, q.epoch, false, now);
        AttachAtKeeps(cfg, births, st.(tomb := tomb), c, ref, t.role,
                      RejoinIn(cfg, st.heap[ref], t.role, c, q.epoch, false, now));
      }
    }
  }

  lemma RejoinConns(cfg: Config, room: Room, role: Role, c: Conn, epoch: string, recreated: bool, now: int)
    ensures var room' := RejoinIn(cfg, room, role, c, epoch, recreated, now);
            room'.At(role).conn == Some(c) && room'.At(role.Other()).conn == room.At(role.Other()).conn
  {
  }

  lemma RecreateKeeps(cfg: Config, births: Births, st: State, c: Conn, q: RejoinRequest, t: Token, now: int)
    requires Core(cfg, births, st) && c !in st.sessions && t.roomID !in st.rooms
    requires Entombed(cfg, st.tomb, st.rooms.Keys + {t.roomID})
    requires TokenBorn(births, t) && !BadEpoch(q.epoch)
    ensures Inv(cfg, births, RecreateStep(cfg, st, c, q, t, now).0)
  {
    hide Fits, Held, Numbered, Entombed, RoomOk, TokenDated, RejoinIn;
    FewerEntombed(cfg, st.tomb, st.rooms.Keys + {t.roomID}, st.rooms.Keys);
    var empty := NewRoom(cfg, t.roomID, now, t.createdAt * SECOND, t.password, q.ip, t.origin);
    OriginFromToken(t);
    NewRoomOk(cfg, t.roomID, now, t.createdAt * SECOND, t.password, q.ip, t.origin);
    RejoinKeepsRoom(cfg, empty, t.role, c, q.epoch, true, now);
    RejoinConns(cfg, empty, t.role, c, q.epoch, true, now);
    AttachNewKeeps(cfg, births, st, c, t.role, RejoinIn(cfg, empty, t.role, c, q.epoch, true, now));
    assert st.rooms[t.roomID := |st.heap|].Keys == st.rooms.Keys + {t.roomID};
  }

  lemma SignalKeeps(cfg: Config, births: Births, st: State, c: Conn, seqNo: int, wellFormed: bool,
                    data: string, now: int)
    requires Inv(cfg, births, st)
    ensures Inv(cfg, births, SignalStep(cfg, st, c, seqNo, wellFormed, data, now).0)
  {
    hide Fits, Held, Numbered, Entombed, RoomOk, SignalIn;
    if c in st.sessions && seqNo > 0 && wellFormed {
      var a := st.sessions[c];
      FitsAt(cfg, births, st.heap, st.sessions, a.ref);
      SignalKeepsRoom(cfg, st.heap[a.ref], a.role, seqNo, data, now);
      SignalConns(cfg, st.heap[a.ref], a.role, seqNo, data, now);
      SetRoomKeeps(cfg, births, st, a.ref, SignalIn(cfg, st.heap[a.ref], a.role, seqNo, data, now).0);
    }
  }

  lemma SignalConns(cfg: Config, room: Room, role: Role, seqNo: int, data: string, now: int)
    ensures SameConns(room, SignalIn(cfg, room, role, seqNo, data, now).0)
  {
  }

  lemma ReportKeeps(cfg: Config, births: Births, st: State, c: Conn, now: int)
    requires Inv(cfg, births, st)
    ensures Inv(cfg, births, ReportStep(cfg, st, c, now).0)
  {
    hide Fits, Held, Numbered, Entombed, RoomOk;
    if c in st.sessions {
      var a := st.sessions[c];
      FitsAt(cfg, births, st.heap, st.sessions, a.ref);
      ReportKeepsRoom(cfg, st.heap[a.ref], a.role, now);
      SetRoomKeeps(cfg, births, st, a.ref, ReportIn(cfg, st.heap[a.ref], a.role, now));
    }
  }

  lemma CloseStepKeeps(cfg: Config, births: Births, st: State, c: Conn, now: int)
    requires Inv(cfg, births, st)
    ensures Inv(cfg, births, CloseStep(cfg, st, c, now).0)
  {
    hide Inv, CloseAt;
    assert Linked(st) by { InvLinked(cfg, births, st); }
    if c in st.sessions {
      CloseKeeps(cfg, births, st, st.sessions[c].ref, ClosedByPeer, now);
    }
  }

  lemma InvLinked(cfg: Config, births: Births, st: State)
    requires Inv(cfg, births, st)
    ensures Linked(st)
  {
    hide Fits, Held, Numbered, Entombed;
  }

  /** A session that leaves frees the slot only if it still holds it. */
  lemma LeaveConns(cfg: Config, room: Room, role: Role, c: Conn, now: int)
    ensures var room' := LeaveIn(cfg, room, role, c, now).0;
            && room'.At(role).conn == (if room.At(role).conn == Some(c) then None else room.At(role).conn)
            && room'.At(role.Other()).conn == room.At(role.Other()).conn
  {
  }

  lemma DetachKeeps(cfg: Config, births: Births, st: State, c: Conn, now: int)
    requires Inv(cfg, births, st)
    ensures Inv(cfg, births, DetachStep(cfg, st, c, now))
  {
    hide Core, Entombed, LeaveIn, Remove;
    if c in st.sessions {
      var a := st.sessions[c];
      var room := LeaveIn(cfg, st.heap[a.ref], a.role, c, now).0;
      LeftKeeps(cfg, births, st, c, now);
      RemoveKeeps(cfg, births, SetRoom(st, a.ref, room).(sessions := st.sessions - {c}), room.roomID);
      FewerEntombed(cfg, st.tomb, st.rooms.Keys, st.rooms.Keys - {room.roomID});
    }
  }

  lemma LeftKeeps(cfg: Config, births: Births, st: State, c: Conn, now: int)
    requires Core(cfg, births, st) && c in st.sessions
    ensures var a := st.sessions[c];
            var room := LeaveIn(cfg, st.heap[a.ref], a.role, c, now).0;
            Core(cfg, births, SetRoom(st, a.ref, room).(sessions := st.sessions - {c}))
  {
    hide Fits, Held, Numbered, RoomOk, LeaveIn, SameRoom;
    var a := st.sessions[c];
    var room := LeaveIn(cfg, st.heap[a.ref], a.role, c, now).0;
    FitsAt(cfg, births, st.heap, st.sessions, a.ref);
    LeaveKeepsRoom(cfg, st.heap[a.ref], a.role, c, now);
    LeaveConns(cfg, st.heap[a.ref], a.role, c, now);
    NumberedPut(st.heap, st.rooms, st.roomsGlobal, a.ref, room);
    FitsLeft(cfg, births, st.heap, st.sessions, c, room);
    HeldLeft(st.heap, st.sessions, st.closing, c, room);
  }

  lemma FitsLeft(cfg: Config, births: Births, heap: seq<Room>, sessions: map<Conn, Attached>, c: Conn, room: Room)
    requires Fits(cfg, births, heap, sessions) && c in sessions && sessions[c].ref < |heap|
    requires var a := sessions[c];
             && RoomOk(cfg, room) && SameRoom(heap[a.ref], room)
             && room.At(a.role).conn ==
                  (if heap[a.ref].At(a.role).conn == Some(c) then None else heap[a.ref].At(a.role).conn)
             && room.At(a.role.Other()).conn == heap[a.ref].At(a.role.Other()).conn
    ensures Fits(cfg, births, heap[sessions[c].ref := room], sessions - {c})
  {
    hide RoomOk;
    var heap' := heap[sessions[c].ref := room];
    forall ref | 0 <= ref < |heap'|
      ensures RoomOk(cfg, heap'[ref]) && Born(births, heap'[ref]) && Agrees(sessions - {c}, ref, heap'[ref])
    {
      assert RoomOk(cfg, heap[ref]) && Born(births, heap[ref]) && Agrees(sessions, ref, heap[ref]);
    }
  }

  lemma HeldLeft(heap: seq<Room>, sessions: map<Conn, Attached>, closing: map<Conn, CloseCode>, c: Conn, room: Room)
    requires Held(heap, sessions, closing) && c in sessions && sessions[c].ref < |heap|
    requires var a := sessions[c];
             && room.At(a.role).conn ==
                  (if heap[a.ref].At(a.role).conn == Some(c) then None else heap[a.ref].At(a.role).conn)
             && room.At(a.role.Other()).conn == heap[a.ref].At(a.role.Other()).conn
    ensures Held(heap[sessions[c].ref := room], sessions - {c}, closing)
  {
    var fewer, heap' := sessions - {c}, heap[sessions[c].ref := room];
    forall d | d in fewer
      ensures HeldOrClosing(heap', closing, d, fewer[d])
    {
      assert HeldOrClosing(heap, closing, d, sessions[d]);
    }
  }

  // ---------------------------------------------------------------- restoring

  /** A file that holds a snapshot holds one of a room that the server had. */
  ghost predicate SnapshotOk(cfg: Config, births: Births, id: string, s: RoomSnapshot) {
    Unmarshal(s).Some? ==>
      RoomOk(cfg, Unmarshal(s).value) && Unmarshal(s).value.roomID == id && Born(births, Unmarshal(s).value)
  }

  ghost predicate DiskOk(cfg: Config, births: Births, disk: Disk) {
    forall id :: id in disk ==> SnapshotOk(cfg, births, id, disk[id])
  }

  ghost predicate Unrepeated(ids: seq<string>) {
    forall i, j :: 0 <= i < j < |ids| ==> ids[i] != ids[j]
  }

  lemma {:induction false} RestoreKeeps(cfg: Config, births: Births, disk: Disk, ids: seq<string>, now: int)
    requires DiskOk(cfg, births, disk) && Unrepeated(ids)
    ensures var (st, disk') := RestoreAll(cfg, EMPTY_STATE, disk, ids, now);
            && Inv(cfg, births, st) && DiskOk(cfg, births, disk')
            && (forall id :: id in st.rooms ==> id in ids)
            && st.sessions == map[] && st.tomb == []
    decreases |ids|
  {
    hide RoomOk, Fits, Held, Numbered, DiskOk, Revived;
    if ids == [] {
      assert Core(cfg, births, EMPTY_STATE) by { NothingFits(cfg, births); }
    } else {
      var id, before := ids[|ids| - 1], ids[..|ids| - 1];
      RestoreKeeps(cfg, births, disk, before, now);
      var (st, disk') := RestoreAll(cfg, EMPTY_STATE, disk, before, now);
      assert id !in before;
      if id in disk {
        DiskAt(cfg, births, disk, id);
        if Revived(cfg, disk[id], now).Some? {
          RevivedKeepsRoom(cfg, disk[id], now);
          var room := Revived(cfg, disk[id], now).value;
          NumberedMore(st.heap, st.rooms, st.roomsGlobal, room);
          FitsMore(cfg, births, st.heap, st.sessions, room);
          HeldMore(st.heap, st.sessions, st.closing, room);
        } else {
          DiskLess(cfg, births, disk', id);
        }
      }
    }
  }

  lemma NothingFits(cfg: Config, births: Births)
    ensures Core(cfg, births, EMPTY_STATE)
  {
  }

  lemma DiskAt(cfg: Config, births: Births, disk: Disk, id: string)
    requires DiskOk(cfg, births, disk) && id in disk
    ensures SnapshotOk(cfg, births, id, disk[id])
  {
  }

  lemma DiskLess(cfg: Config, births: Births, disk: Disk, id: string)
    requires DiskOk(cfg, births, disk)
    ensures DiskOk(cfg, births, disk - {id})
  {
    hide SnapshotOk;
  }
}
