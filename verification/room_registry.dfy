/** The registry as the server keeps it: an object whose handlers change its fields one assignment at
    a time. Each is proved to take exactly the step of the model, and to keep what every step keeps. */
module RoomRegistry {
  import opened Options
  import opened Sequences
  import opened LruSpec
  import opened Lru
  import opened Tombstone
  import opened RoomModel
  import opened RoomRules
  import opened RoomInvariants
  import opened RoomSweep
  import opened RoomRuns

  lemma NamesDiffer(cfg: Config, births: Births, st: State)
    requires Inv(cfg, births, st)
    ensures forall id, id' :: id in st.rooms && id' in st.rooms && st.rooms[id] == st.rooms[id'] ==> id == id'
  {
    hide Fits, Held, Entombed;
    forall id, id' | id in st.rooms && id' in st.rooms && st.rooms[id] == st.rooms[id']
      ensures id == id'
    {
      assert st.heap[st.rooms[id]].roomID == id;
    }
  }

  lemma IsRegistered(rooms: map<string, nat>, id: string)
    requires id in rooms
    ensures Registered(rooms, rooms[id])
  {
  }

  lemma RestoreNone(cfg: Config, disk: Disk, ids: seq<string>, now: int)
    ensures RestoreAll(cfg, EMPTY_STATE, disk, ids[..0], now) == (EMPTY_STATE, disk)
  {
  }

  lemma RestoreMore(cfg: Config, disk: Disk, ids: seq<string>, i: nat, now: int)
    requires i < |ids|
    ensures var (st, left) := RestoreAll(cfg, EMPTY_STATE, disk, ids[..i], now);
            RestoreAll(cfg, EMPTY_STATE, disk, ids[..i + 1], now) ==
              if ids[i] !in disk then (st, left)
              else if Revived(cfg, disk[ids[i]], now).None? then (st, left - {ids[i]})
              else (AddRestored(st, Revived(cfg, disk[ids[i]], now).value), left)
  {
    hide Revived, AddRestored;
    assert ids[..i + 1][..i] == ids[..i];
  }

  lemma NewRoomIsEmpty(cfg: Config, t: Token, ip: string, now: int)
    ensures var room := NewRoom(cfg, t.roomID, now, t.createdAt * SECOND, t.password, ip, t.origin);
            room.roomID == t.roomID && room.host == EMPTY_SLOT && room.guest == EMPTY_SLOT
  {
  }

  function CreateRefusal(cfg: Config, sessions: map<Conn, Attached>, c: Conn, q: CreateRequest): Option<ErrorCode> {
    if c in sessions then Some(UnexpectedState)
    else if BadEpoch(q.epoch) then Some(MalformedMessage)
    else if cfg.turnstile && !q.turnstileOK then Some(if q.turnstileToken then TurnstileInvalid else TurnstileRequired)
    else if !q.rateOK || !q.ipOK then Some(RateLimited)
    else None
  }

  lemma CreateByRefusal(cfg: Config, st: State, c: Conn, q: CreateRequest, now: int)
    ensures var refusal := CreateRefusal(cfg, st.sessions, c, q);
            CreateStep(cfg, st, c, q, now) ==
              if refusal.Some? then (st, Refused(refusal.value)) else CreateOpenStep(cfg, st, c, q, now)
  {
    hide Generate;
  }

  class Registry {
    const cfg: Config
    const tomb: Store
    var heap: seq<Room>
    var rooms: map<string, nat>
    var sessions: map<Conn, Attached>
    var closing: map<Conn, CloseCode>
    var roomsGlobal: int
    /** The host tokens of the creations, and all tokens signed, so far. */
    ghost var births: Births
    ghost var issued: set<Token>

    ghost function View(): State
      reads this, tomb.c
    {
      State(heap, rooms, sessions, closing, roomsGlobal, tomb.c.entries)
    }

    ghost predicate Ready()
      reads this, tomb, tomb.c, tomb.c.Repr
    {
      this !in tomb.c.Repr && tomb.Valid() && tomb.ttl == cfg.tombstoneTtl && tomb.c.capacity == cfg.tombstoneCapacity
    }

    ghost predicate Valid()
      reads this, tomb, tomb.c, tomb.c.Repr
    {
      Ready() && Inv(cfg, births, View()) && TokensOk(births, issued)
    }

    constructor (cfg: Config)
      ensures Valid() && View() == EMPTY_STATE && this.cfg == cfg && births == {} && issued == {}
      ensures fresh(tomb.c.Repr)
    {
      this.cfg := cfg;
      var store := new Store(cfg.tombstoneCapacity, cfg.tombstoneTtl);
      tomb := store;
      heap, rooms, sessions, closing, roomsGlobal := [], map[], map[], map[], 0;
      births, issued := {}, {};
      new;
      NothingIsOk(cfg);
    }

    // -------------------------------------------------------------- counters and ids

    method AcquireGlobalRoomSlot() returns (ok: bool)
      modifies this`roomsGlobal
      ensures ok == (old(roomsGlobal) < cfg.maxRoomsGlobal)
      ensures roomsGlobal == if ok then old(roomsGlobal) + 1 else old(roomsGlobal)
    {
      if roomsGlobal >= cfg.maxRoomsGlobal {
        return false;
      }
      roomsGlobal := roomsGlobal + 1;
      ok := true;
    }

    method GenerateRoomID(candidates: seq<string>, now: int) returns (id: Option<string>)
      requires Ready()
      modifies tomb.c.Repr
      ensures Ready() && tomb.c.Repr == old(tomb.c.Repr)
      ensures (tomb.c.entries, id) ==
                Generate(rooms.Keys, old(tomb.c.entries), FirstTries(candidates), now, cfg.tombstoneTtl)
    {
      hide Cache.Within, Ask;
      ghost var tries := FirstTries(candidates);
      var i := 0;
      while i < MAX_RETRIES && i < |candidates|
        invariant i <= |tries| && Ready() && tomb.c.Repr == old(tomb.c.Repr)
        invariant Generate(rooms.Keys, old(tomb.c.entries), tries, now, cfg.tombstoneTtl) ==
                  Generate(rooms.Keys, tomb.c.entries, tries[i..], now, cfg.tombstoneTtl)
      {
        if candidates[i] !in rooms {
          var buried := tomb.Has(candidates[i], now);
          if !buried {
            return Some(candidates[i]);
          }
        }
        i := i + 1;
      }
      id := None;
    }

    // -------------------------------------------------------------- removing rooms

    method RemoveRoom(id: string)
      modifies this`rooms, this`roomsGlobal
      ensures View() == Remove(old(View()), id)
    {
      if id in rooms {
        rooms := rooms - {id};
        roomsGlobal := roomsGlobal - 1;
      }
    }

    /** Tells the connection in a slot, closes it and lets go of it. */
    method VacateSlot(ref: nat, role: Role, msg: Msg, code: CloseCode)
      requires ref < |heap|
      modifies this`heap, this`closing
      ensures heap == old(heap)[ref := old(heap)[ref].Put(role, Vacate(old(heap)[ref].At(role), msg))]
      ensures closing == WithClosing(old(closing), old(heap)[ref].At(role), code)
    {
      var slot := heap[ref].At(role);
      if slot.conn.Some? {
        slot := slot.(log := slot.log + [msg]);
        closing := closing[slot.conn.value := code];
        slot := slot.(conn := None);
        heap := heap[ref := heap[ref].Put(role, slot)];
      } else {
        assert heap[ref := heap[ref].Put(role, Vacate(slot, msg))] == heap;
      }
    }

    method EvictRoom(ref: nat, msg: Msg, code: CloseCode)
      requires ref < |heap|
      modifies this`heap, this`closing, this`rooms, this`roomsGlobal
      ensures View() == Evict(old(View()), ref, msg, code)
    {
      VacateSlot(ref, Host, msg, code);
      VacateSlot(ref, Guest, msg, code);
      assert heap == old(heap)[ref := ClearIn(old(heap)[ref], msg)];
      RemoveRoom(heap[ref].roomID);
    }

    method CloseRoomLocked(ref: nat, reason: Reason, now: int)
      requires Ready() && ref < |heap|
      modifies this`heap, this`closing, this`rooms, this`roomsGlobal, tomb.c.Repr
      ensures Ready() && fresh(tomb.c.Repr - old(tomb.c.Repr))
      ensures View() == CloseAt(cfg, old(View()), ref, reason, now)
    {
      hide Cache.Within, Insert, Evict;
      tomb.Add(heap[ref].roomID, reason, now);
      EvictRoom(ref, RoomClosedMsg(reason), ClosedRoom);
    }

    // -------------------------------------------------------------- handshakes

    method CreateRoom(c: Conn, q: CreateRequest, now: int) returns (reply: Reply)
      requires Valid()
      modifies this, tomb.c.Repr
      ensures Valid() && fresh(tomb.c.Repr - old(tomb.c.Repr))
      ensures (View(), reply) == CreateStep(cfg, old(View()), c, q, now)
      ensures births == (if reply.Created? then old(births) + {reply.token} else old(births))
      ensures issued == (if reply.Created? then old(issued) + {reply.token} else old(issued))
    {
      hide Cache.Within, Inv, TokensOk, Generate, FirstTries, TokenDated, Protects, TokenFor, NewRoom, HostIn,
           AttachNew, CreateRefusal, CreateStep;
      CreateKeeps(cfg, births, View(), c, q, now);
      CreateByRefusal(cfg, View(), c, q, now);
      var refusal := CheckCreate(c, q);
      if refusal.Some? {
        return Refused(refusal.value);
      }
      var acquired := AcquireGlobalRoomSlot();
      if !acquired {
        return Refused(ServerAtCapacity);
      }
      var id := GenerateRoomID(q.candidates, now);
      if id.None? || !q.turnOK {
        roomsGlobal := roomsGlobal - 1;
        return Refused(ServerAtCapacity);
      }
      var room := OpenRoom(id.value, c, q, now);
      Publish(room, c, Host);
      reply := Created(id.value, TokenFor(room, Host), room.peerDeadlineAt.value, room.expiresAt);
      TokensBorn(births, issued, reply.token);
      births, issued := births + {reply.token}, issued + {reply.token};
    }

    /** The checks that come before any place is taken. */
    method CheckCreate(c: Conn, q: CreateRequest) returns (refusal: Option<ErrorCode>)
      ensures refusal == CreateRefusal(cfg, sessions, c, q)
    {
      if c in sessions {
        return Some(UnexpectedState);
      }
      if BadEpoch(q.epoch) {
        return Some(MalformedMessage);
      }
      if cfg.turnstile && !q.turnstileOK {
        if !q.turnstileToken {
          return Some(TurnstileRequired);
        }
        return Some(TurnstileInvalid);
      }
      if !q.rateOK {
        return Some(RateLimited);
      }
      if !q.ipOK {
        return Some(RateLimited);
      }
      refusal := None;
    }

    /** A new room with its creator in the host slot. */
    method OpenRoom(id: string, c: Conn, q: CreateRequest, now: int) returns (room: Room)
      ensures room == HostIn(NewRoom(cfg, id, now, now, OptionalPassword(q.password), q.ip, now), c, q.epoch)
      ensures room.peerDeadlineAt.Some? && room.roomID == id
    {
      var expiresAt := ExpiresAt(cfg, now, now);
      var deadline := PeerDeadline(cfg, now, expiresAt);
      room := Room(id, now, now, expiresAt, Some(deadline), None, None, 0, q.ip, EMPTY_SLOT, EMPTY_SLOT, now);
      if q.password != "" {
        room := room.(password := Some(q.password));
      }
      room := room.(host := room.host.(conn := Some(c), epoch := q.epoch));
    }

    /** Registers a room whose place in the global count is already taken. */
    method Publish(room: Room, c: Conn, role: Role)
      modifies this`heap, this`rooms, this`sessions, this`closing
      ensures View() == AttachNew(old(View()).(roomsGlobal := roomsGlobal - 1), c, role, room)
    {
      rooms := rooms[room.roomID := |heap|];
      sessions := sessions[c := Attached(|heap|, role)];
      closing := closing - {c};
      heap := heap + [room];
    }

    method JoinRoom(c: Conn, q: JoinRequest, now: int) returns (reply: Reply)
      requires Valid()
      modifies this, tomb.c.Repr
      ensures Valid() && fresh(tomb.c.Repr - old(tomb.c.Repr))
      ensures Linked(old(View())) && (View(), reply) == JoinStep(cfg, old(View()), c, q, now)
      ensures births == old(births)
      ensures issued == (if reply.Joined? then old(issued) + {reply.token} else old(issued))
    {
      hide Cache.Within, Inv, TokensOk, EnterStep, Ask, TokenDated;
      InvLinked(cfg, births, View());
      JoinKeeps(cfg, births, View(), c, q, now);
      if c in sessions {
        return Refused(UnexpectedState);
      }
      if q.id.None? || BadEpoch(q.epoch) {
        return Refused(MalformedMessage);
      }
      var buried := tomb.Has(q.id.value, now);
      if buried {
        return Refused(RoomClosed);
      }
      if q.id.value !in rooms {
        return Refused(RoomNotFound);
      }
      reply := Enter(c, q, rooms[q.id.value], now);
      if reply.Joined? {
        TokensMore(births, issued, reply.token);
        issued := issued + {reply.token};
      }
    }

    method Enter(c: Conn, q: JoinRequest, ref: nat, now: int) returns (reply: Reply)
      requires Ready() && ref < |heap|
      modifies this`heap, this`closing, this`rooms, this`roomsGlobal, this`sessions, tomb.c.Repr
      ensures Ready() && fresh(tomb.c.Repr - old(tomb.c.Repr))
      ensures (View(), reply) == EnterStep(cfg, old(View()), c, q, ref, now)
    {
      hide Cache.Within, CloseAt;
      var room := heap[ref];
      if room.password.Some? && room.password.value != q.password {
        room := room.(passwordAttempts := room.passwordAttempts + 1);
        heap := heap[ref := room];
        if room.passwordAttempts >= cfg.maxPasswordAttempts {
          CloseRoomLocked(ref, PasswordLockout, now);
          return Fatal(TooManyPasswordAttempts, ClosedRoom);
        }
        return Refused(InvalidGuestPassword);
      }
      if room.guest.conn.Some? {
        return Refused(RoomFull);
      }
      if !q.turnOK {
        return Refused(ServerAtCapacity);
      }
      room := room.(guest := room.guest.(conn := Some(c), epoch := q.epoch, log := []));
      room := room.(peerDeadlineAt := None);
      sessions := sessions[c := Attached(ref, Guest)];
      closing := closing - {c};
      if room.host.conn.Some? {
        room := room.(host := room.host.(log := room.host.log + [GuestJoined(q.epoch)]));
      }
      heap := heap[ref := room];
      reply := Joined(TokenFor(room, Guest), room.host.conn.Some?, room.host.epoch, room.expiresAt);
    }

    method RejoinRoom(c: Conn, q: RejoinRequest, now: int) returns (reply: Reply)
      requires Valid()
      requires q.credential.Verified? ==> q.credential.token in issued
      modifies this, tomb.c.Repr
      ensures Valid() && fresh(tomb.c.Repr - old(tomb.c.Repr))
      ensures Linked(old(View())) && (View(), reply) == RejoinStep(cfg, old(View()), c, q, now)
      ensures births == old(births) && issued == old(issued)
    {
      hide Cache.Within, Inv, Ask, RejoinIn, TokenDated;
      InvLinked(cfg, births, View());
      RejoinKeeps(cfg, births, View(), c, q, now);
      if c in sessions {
        return Refused(UnexpectedState);
      }
      if q.credential.Missing? {
        return Refused(InvalidRejoinToken);
      }
      if BadEpoch(q.epoch) {
        return Refused(MalformedMessage);
      }
      if q.credential.Unverified? {
        return Refused(InvalidRejoinToken);
      }
      var t := q.credential.token;
      if TokenExpired(t, now, cfg.rejoinTokenTtl) {
        return Refused(RoomExpired);
      }
      var buried := tomb.Has(t.roomID, now);
      if buried {
        return Refused(RoomClosed);
      }
      if !q.rateOK {
        return Refused(RateLimited);
      }
      if t.roomID !in rooms {
        reply := Recreate(c, q, t, now);
        return;
      }
      if !q.turnOK {
        return Refused(ServerAtCapacity);
      }
      var room := Replace(rooms[t.roomID], t.role, c, q.epoch, false, now);
      reply := RejoinReply(room, t.role, false);
    }

    method Recreate(c: Conn, q: RejoinRequest, t: Token, now: int) returns (reply: Reply)
      requires Ready() && t.roomID !in rooms
      modifies this`heap, this`closing, this`rooms, this`roomsGlobal, this`sessions
      ensures Ready()
      ensures (View(), reply) == RecreateStep(cfg, old(View()), c, q, t, now)
    {
      hide Cache.Within, RejoinIn, NewRoom;
      if !q.turnOK {
        return Refused(ServerAtCapacity);
      }
      if !q.ipOK {
        return Refused(RateLimited);
      }
      var acquired := AcquireGlobalRoomSlot();
      if !acquired {
        return Refused(ServerAtCapacity);
      }
      var empty := NewRoom(cfg, t.roomID, now, t.createdAt * SECOND, t.password, q.ip, t.origin);
      NewRoomIsEmpty(cfg, t, q.ip, now);
      rooms := rooms[t.roomID := |heap|];
      heap := heap + [empty];
      var room := Replace(|heap| - 1, t.role, c, q.epoch, true, now);
      assert heap == old(heap) + [room];
      reply := RejoinReply(room, t.role, true);
    }

    /** Takes the slot, closing whoever holds it. */
    method Replace(ref: nat, role: Role, c: Conn, epoch: string, recreated: bool, now: int) returns (room: Room)
      requires ref < |heap|
      modifies this`heap, this`closing, this`sessions
      ensures room == RejoinIn(cfg, old(heap)[ref], role, c, epoch, recreated, now)
      ensures room.roomID == old(heap)[ref].roomID
      ensures View() == AttachAt(old(View()), c, ref, role, room)
    {
      if heap[ref].At(role).conn.Some? {
        closing := closing[heap[ref].At(role).conn.value := Replaced];
      }
      room := Reattach(heap[ref], role, c, epoch, recreated, now);
      heap := heap[ref := room];
      sessions := sessions[c := Attached(ref, role)];
      closing := closing - {c};
    }

    /** The part of a rejoin that happens inside the room. */
    method Reattach(was: Room, role: Role, c: Conn, epoch: string, recreated: bool, now: int) returns (room: Room)
      ensures room == RejoinIn(cfg, was, role, c, epoch, recreated, now)
    {
      var mySlot, otherSlot := was.At(role), was.At(role.Other());
      var epochChanged := recreated || mySlot.epoch != epoch;
      mySlot := mySlot.(conn := Some(c), epoch := epoch, log := []);
      if epochChanged {
        mySlot := mySlot.(buffer := [], bufferBytes := 0, lastSeq := 0, reportedConnected := false,
                          overflowReset := false);
      }
      var deadline := None;
      if otherSlot.conn.None? {
        deadline := Some(PeerDeadline(cfg, now, was.expiresAt));
      }
      if otherSlot.conn.Some? {
        if epochChanged {
          otherSlot := otherSlot.(buffer := [], bufferBytes := 0, lastSeq := 0, reportedConnected := false,
                                  overflowReset := false, log := otherSlot.log + [PeerReset(role, epoch)]);
        } else {
          otherSlot := otherSlot.(log := otherSlot.log + [PeerRejoined(role, epoch)]);
        }
      }
      if !epochChanged {
        mySlot := ReplayTo(mySlot);
      }
      room := was.Put(role, mySlot).Put(role.Other(), otherSlot).(peerDeadlineAt := deadline);
    }

    method ReplayTo(slot: Slot) returns (slot': Slot)
      requires slot.log == []
      ensures slot' == slot.(log := Replayed(slot.buffer))
    {
      slot' := slot;
      for i := 0 to |slot.buffer|
        invariant slot' == slot.(log := Replayed(slot.buffer)[..i])
      {
        slot' := slot'.(log := slot'.log + [Heard(slot.buffer[i])]);
      }
    }

    // -------------------------------------------------------------- attached sessions

    method Signal(c: Conn, seqNo: int, wellFormed: bool, data: string, now: int) returns (reply: Reply)
      requires Valid()
      modifies this`heap
      ensures Valid()
      ensures Linked(old(View())) && (View(), reply) == SignalStep(cfg, old(View()), c, seqNo, wellFormed, data, now)
    {
      hide Cache.Within, Inv, SignalIn;
      InvLinked(cfg, births, View());
      SignalKeeps(cfg, births, View(), c, seqNo, wellFormed, data, now);
      if c !in sessions {
        return Refused(UnexpectedState);
      }
      if seqNo <= 0 {
        return Refused(MalformedMessage);
      }
      if !wellFormed {
        return Refused(MalformedMessage);
      }
      var ref := sessions[c].ref;
      var room, overflow := Relay(heap[ref], sessions[c].role, seqNo, data, now);
      heap := heap[ref := room];
      if overflow {
        return Refused(SignalBufferOverflow);
      }
      reply := Silent;
    }

    /** The part of a signal that happens inside the room. */
    method Relay(room: Room, role: Role, seqNo: int, data: string, now: int) returns (room': Room, overflow: bool)
      ensures (room', overflow) == SignalIn(cfg, room, role, seqNo, data, now)
    {
      room', overflow := room, false;
      var mySlot, otherSlot := room.At(role), room.At(role.Other());
      if seqNo <= mySlot.lastSeq {
        return;
      }
      mySlot := mySlot.(lastSeq := seqNo);
      room' := room.Put(role, mySlot);
      var signal := RoomModel.Signal(role, mySlot.epoch, seqNo, data, now);
      if otherSlot.conn.Some? {
        otherSlot := otherSlot.(log := otherSlot.log + [Heard(signal)]);
      } else if |otherSlot.buffer| >= cfg.maxBufferedSignals
                || otherSlot.bufferBytes + |data| > cfg.maxBufferedSignalBytes {
        otherSlot := otherSlot.(buffer := [], bufferBytes := 0, overflowReset := true);
        overflow := true;
      } else {
        otherSlot := otherSlot.(buffer := otherSlot.buffer + [signal]);
        otherSlot := otherSlot.(bufferBytes := otherSlot.bufferBytes + |data|);
      }
      room' := room'.Put(role.Other(), otherSlot);
    }

    method PeerConnected(c: Conn, now: int) returns (reply: Reply)
      requires Valid()
      modifies this`heap
      ensures Valid()
      ensures Linked(old(View())) && (View(), reply) == ReportStep(cfg, old(View()), c, now)
    {
      hide Cache.Within, Inv;
      InvLinked(cfg, births, View());
      ReportKeeps(cfg, births, View(), c, now);
      if c !in sessions {
        return Refused(UnexpectedState);
      }
      var ref, role := sessions[c].ref, sessions[c].role;
      var room := heap[ref];
      var mySlot := room.At(role);
      if mySlot.reportedConnected {
        assert heap[ref := room] == heap;
        return Silent;
      }
      room := room.Put(role, mySlot.(reportedConnected := true));
      if room.At(role.Other()).reportedConnected && cfg.releaseSockets {
        room := room.(releaseAt := Some(now + cfg.peerConnectedGrace));
      }
      heap := heap[ref := room];
      reply := Silent;
    }

    method CloseRoom(c: Conn, now: int) returns (reply: Reply)
      requires Valid()
      modifies this`heap, this`closing, this`rooms, this`roomsGlobal, tomb.c.Repr
      ensures Valid() && fresh(tomb.c.Repr - old(tomb.c.Repr))
      ensures Linked(old(View())) && (View(), reply) == CloseStep(cfg, old(View()), c, now)
    {
      hide Cache.Within, Inv, CloseAt;
      InvLinked(cfg, births, View());
      CloseStepKeeps(cfg, births, View(), c, now);
      if c !in sessions {
        return Refused(UnexpectedState);
      }
      CloseRoomLocked(sessions[c].ref, ClosedByPeer, now);
      reply := Silent;
    }

    method Detach(c: Conn, now: int)
      requires Valid()
      modifies this`heap, this`sessions, this`rooms, this`roomsGlobal
      ensures Valid()
      ensures Linked(old(View())) && View() == DetachStep(cfg, old(View()), c, now)
    {
      hide Cache.Within, Inv, Remove, LeaveIn;
      InvLinked(cfg, births, View());
      DetachKeeps(cfg, births, View(), c, now);
      if c !in sessions {
        return;
      }
      var ref, role := sessions[c].ref, sessions[c].role;
      sessions := sessions - {c};
      var room, gone := Leave(heap[ref], role, c, now);
      heap := heap[ref := room];
      if gone {
        RemoveRoom(room.roomID);
      }
    }

    /** The part of a detach that happens inside the room. */
    method Leave(room: Room, role: Role, c: Conn, now: int) returns (room': Room, gone: bool)
      ensures (room', gone) == LeaveIn(cfg, room, role, c, now)
    {
      room', gone := room, false;
      var mySlot := room.At(role);
      if mySlot.conn == Some(c) {
        mySlot := mySlot.(conn := None);
      }
      room' := room.Put(role, mySlot);
      var otherSlot := room'.At(role.Other());
      if otherSlot.conn.Some? {
        otherSlot := otherSlot.(log := otherSlot.log + [PeerDisconnected(role)]);
        room' := room'.Put(role.Other(), otherSlot);
        room' := room'.(peerDeadlineAt := Some(PeerDeadline(cfg, now, room'.expiresAt)));
      } else if room'.host.epoch == "" && room'.guest.epoch == "" {
        gone := true;
      } else {
        room' := room'.(peerDeadlineAt := Some(PeerDeadline(cfg, now, room'.expiresAt)));
      }
    }

    // -------------------------------------------------------------- sweep and shutdown

    /** The registered rooms, in the order in which a map happens to be visited. */
    method ListRooms() returns (refs: seq<nat>)
      requires Inv(cfg, births, View())
      ensures Lists(refs, rooms)
    {
      hide Inv, Registered;
      NamesDiffer(cfg, births, View());
      refs := [];
      var rest := rooms;
      while rest != map[]
        invariant rest.Keys <= rooms.Keys && forall id :: id in rest ==> rest[id] == rooms[id]
        invariant Distinct(refs)
        invariant forall i, id :: 0 <= i < |refs| && id in rest ==> refs[i] != rooms[id]
        invariant forall i :: 0 <= i < |refs| ==> Registered(rooms, refs[i])
        invariant forall id :: id in rooms && id !in rest ==> rooms[id] in refs
        decreases rest.Keys
      {
        var id :| id in rest;
        assert Registered(rooms, rooms[id]) by { IsRegistered(rooms, id); }
        refs := refs + [rest[id]];
        rest := rest - {id};
      }
    }

    /** listed is the order in which the rooms were visited. */
    method SweepOnce(now: int) returns (ghost listed: seq<nat>)
      requires Valid()
      modifies this`heap, this`closing, this`rooms, this`roomsGlobal, tomb.c.Repr
      ensures Valid() && tomb.c.Repr == old(tomb.c.Repr)
      ensures Lists(listed, old(rooms)) && forall i :: 0 <= i < |listed| ==> listed[i] < |old(heap)|
      ensures View() == SweepOnceStep(cfg, old(View()), listed, now)
      ensures forall id :: id in old(rooms) ==> old(rooms)[id] < |old(heap)| == |heap|
      ensures forall id :: id in old(rooms) ==> heap[old(rooms)[id]] == Gone(old(heap)[old(rooms)[id]], DueAt(now))
      ensures forall id :: id in rooms <==> id in old(rooms) && !DueNow(old(heap)[old(rooms)[id]], now)
      ensures forall id :: id in rooms ==> rooms[id] == old(rooms)[id] && heap[rooms[id]] == old(heap)[rooms[id]]
      ensures forall id :: id in rooms ==> !DueNow(heap[rooms[id]], now)
    {
      hide Cache.Within, Inv, Live, EvictAll, Lists, DueNow, EvictFor, Gone;
      InvLinked(cfg, births, View());
      ghost var before := View();
      var _ := tomb.Sweep(now);
      var swept := before.(tomb := Live(before.tomb, now, cfg.tombstoneTtl));
      assert View() == swept;
      TombsKeep(cfg, births, before, now);
      var refs := ListRooms();
      listed := refs;
      SweepLeavesNothingDue(cfg, births, before, refs, now);
      EvictRooms(refs, DueAt(now));
      InvLinked(cfg, births, View());
    }

    /** One room after the other. */
    method EvictRooms(refs: seq<nat>, cause: Cause)
      requires forall i :: 0 <= i < |refs| ==> refs[i] < |heap|
      modifies this`heap, this`closing, this`rooms, this`roomsGlobal
      ensures View() == EvictAll(old(View()), refs, cause)
    {
      hide Evict;
      ghost var before := View();
      for i := 0 to |refs|
        invariant View() == EvictAll(before, refs[..i], cause)
        invariant |heap| == |before.heap|
      {
        assert refs[..i + 1][..i] == refs[..i];
        var due := cause(heap[refs[i]]);
        if due.Some? {
          EvictRoom(refs[i], due.value.0, due.value.1);
        }
      }
      assert refs[..|refs|] == refs;
    }

    method Shutdown() returns (ghost listed: seq<nat>)
      requires Valid()
      modifies this`heap, this`closing, this`rooms, this`roomsGlobal
      ensures Valid() && rooms == map[] && roomsGlobal == 0
      ensures Lists(listed, old(rooms)) && forall i :: 0 <= i < |listed| ==> listed[i] < |old(heap)|
      ensures View() == EvictAll(old(View()), listed, ShuttingDownAll())
      ensures forall id :: id in old(rooms) ==>
                old(rooms)[id] < |heap| && heap[old(rooms)[id]].host.conn.None? && heap[old(rooms)[id]].guest.conn.None?
    {
      hide Cache.Within, Inv, EvictAll, Lists;
      InvLinked(cfg, births, View());
      var refs := ListRooms();
      listed := refs;
      ShutdownEmpties(cfg, births, View(), refs);
      EvictRooms(refs, ShuttingDownAll());
    }

    // -------------------------------------------------------------- persistence

    method SnapshotRoom(id: string) returns (data: Option<RoomSnapshot>)
      requires Valid()
      ensures data.Some? <==> id in rooms
      ensures data.Some? ==> rooms[id] < |heap| && data.value == Marshal(heap[rooms[id]]) && data.value.roomID == id
    {
      hide Cache.Within, Fits, Held, Entombed, TokensOk;
      if id !in rooms {
        return None;
      }
      data := Some(Marshal(heap[rooms[id]]));
    }

    method AddRoom(room: Room)
      modifies this`heap, this`rooms, this`roomsGlobal
      ensures View() == AddRestored(old(View()), room) && roomsGlobal == old(roomsGlobal) + 1
    {
      roomsGlobal := roomsGlobal + 1;
      rooms := rooms[room.roomID := |heap|];
      heap := heap + [room];
    }

    /** Rehydrates an empty registry from the files of a previous process. */
    method Restore(disk: Disk, ids: seq<string>, now: int) returns (disk': Disk, restored: nat)
      requires Valid() && View() == EMPTY_STATE
      requires ListsFiles(ids, disk) && DiskOk(cfg, births, disk)
      modifies this`heap, this`rooms, this`roomsGlobal
      ensures Valid() && (View(), disk') == RestoreAll(cfg, EMPTY_STATE, disk, ids, now)
      ensures restored == roomsGlobal == |rooms| && DiskOk(cfg, births, disk')
    {
      hide Cache.Within, Inv, TokensOk, DiskOk, Revived, AddRestored, RestoreAll;
      RestoreKeeps(cfg, births, disk, ids, now);
      disk', restored := disk, 0;
      RestoreNone(cfg, disk, ids, now);
      for i := 0 to |ids|
        invariant (View(), disk') == RestoreAll(cfg, EMPTY_STATE, disk, ids[..i], now)
        invariant restored == roomsGlobal && Ready()
      {
        RestoreMore(cfg, disk, ids, i, now);
        if ids[i] in disk {
          var room := Revived(cfg, disk[ids[i]], now);
          if room.None? {
            disk' := disk' - {ids[i]};
          } else {
            AddRoom(room.value);
            restored := restored + 1;
          }
        }
      }
      assert ids[..|ids|] == ids;
      InvCounts(cfg, births, View());
    }
  }

  lemma InvCounts(cfg: Config, births: Births, st: State)
    requires Inv(cfg, births, st)
    ensures st.roomsGlobal == |st.rooms|
  {
    hide Fits, Held, Entombed;
  }
}
