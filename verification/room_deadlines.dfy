/** The peer deadline over whole runs: exactly which steps leave a registered room without the deadline it
    should have, or with one it should not. */
module RoomDeadlines {
  import opened Options
  import opened LruSpec
  import opened Tombstone
  import opened RoomModel
  import opened RoomRules
  import opened RoomInvariants
  import opened RoomRuns
  import opened RoomTheorems
  import opened RoomEpochs

  /** Every registered room has a deadline exactly while one side is there. */
  ghost predicate Timed(heap: seq<Room>, rooms: map<string, nat>) {
    forall id :: id in rooms ==> rooms[id] < |heap| && DeadlineFits(heap[rooms[id]])
  }

  ghost predicate Current(st: State, ref: nat)
    requires ref < |st.heap|
  {
    st.heap[ref].roomID in st.rooms && st.rooms[st.heap[ref].roomID] == ref
  }

  /** What the session has to find when it detaches: its peer there, and its slot not taken over; or, with
      the peer away, the slot taken over. */
  ghost predicate LeavesInTime(cfg: Config, room: Room, role: Role, c: Conn, now: int) {
    var mine, yours := room.At(role).conn, room.At(role.Other()).conn;
    LeaveIn(cfg, room, role, c, now).1 || (yours.Some? <==> mine.None? || mine == Some(c))
  }

  /** An accepted join finds the host there, a detach leaves in time, and a restart brings nothing back. */
  ghost predicate InTime(cfg: Config, w: World, a: Action)
    requires Linked(w.st)
  {
    match a
    case JoinRoom(c, q, now) =>
      JoinStep(cfg, w.st, c, q, now).1.Joined? && q.id.Some? && q.id.value in w.st.rooms ==>
        w.st.heap[w.st.rooms[q.id.value]].host.conn.Some?
    case Detach(c, now) =>
      c in w.st.sessions && Current(w.st, w.st.sessions[c].ref) ==>
        LeavesInTime(cfg, w.st.heap[w.st.sessions[c].ref], w.st.sessions[c].role, c, now)
    case Restart(ids, now) =>
      ListsFiles(ids, w.disk) ==> forall id :: id in w.disk ==> Revived(cfg, w.disk[id], now).None?
    case _ => true
  }

  // ---------------------------------------------------------------- one room is set, added or evicted

  lemma TimedPut(st: State, ref: nat, room: Room)
    requires Numbered(st.heap, st.rooms, st.roomsGlobal) && ref < |st.heap| && Timed(st.heap, st.rooms)
    ensures Timed(st.heap[ref := room], st.rooms) <==> (Current(st, ref) ==> DeadlineFits(room))
  {
    hide DeadlineFits;
    if Current(st, ref) && Timed(st.heap[ref := room], st.rooms) {
      assert st.heap[ref := room][st.rooms[st.heap[ref].roomID]] == room;
    }
  }

  lemma TimedMore(st: State, room: Room)
    requires Numbered(st.heap, st.rooms, st.roomsGlobal) && Timed(st.heap, st.rooms) && DeadlineFits(room)
    ensures Timed(st.heap + [room], st.rooms[room.roomID := |st.heap|])
  {
    hide DeadlineFits;
  }

  /** The room at ref may be anything once its id is off the register. */
  lemma TimedLess(st: State, ref: nat, room: Room)
    requires Numbered(st.heap, st.rooms, st.roomsGlobal) && ref < |st.heap| && Timed(st.heap, st.rooms)
    ensures Timed(st.heap[ref := room], st.rooms - {st.heap[ref].roomID})
  {
    hide DeadlineFits;
  }

  lemma EvictedInTime(st: State, ref: nat, msg: Msg, code: CloseCode)
    requires Numbered(st.heap, st.rooms, st.roomsGlobal) && ref < |st.heap| && Timed(st.heap, st.rooms)
    ensures Timed(Evict(st, ref, msg, code).heap, Evict(st, ref, msg, code).rooms)
  {
    hide Timed, Numbered, ClearIn;
    ClearSame(st.heap[ref], msg);
    TimedLess(st, ref, ClearIn(st.heap[ref], msg));
    assert st.heap[ref].roomID !in st.rooms ==> st.rooms - {st.heap[ref].roomID} == st.rooms;
  }

  lemma ClearSame(room: Room, msg: Msg)
    ensures ClearIn(room, msg).roomID == room.roomID
  {
  }

  // ---------------------------------------------------------------- step by step

  /** A new room has its host in it and a deadline. */
  lemma DeadlineAfterCreate(cfg: Config, id: string, now: int, password: Option<string>, ip: string, c: Conn,
                            epoch: string)
    ensures DeadlineFits(HostIn(NewRoom(cfg, id, now, now, password, ip, now), c, epoch))
  {
  }

  /** A restored room has a deadline and nobody in it. */
  lemma DeadlineAfterRestore(cfg: Config, s: RoomSnapshot, now: int)
    requires Revived(cfg, s, now).Some?
    ensures !DeadlineFits(Revived(cfg, s, now).value)
  {
  }

  lemma CreatedInTime(cfg: Config, st: State, c: Conn, q: CreateRequest, now: int)
    requires Numbered(st.heap, st.rooms, st.roomsGlobal) && Timed(st.heap, st.rooms)
    ensures var st' := CreateStep(cfg, st, c, q, now).0; Timed(st'.heap, st'.rooms)
  {
    hide Timed, Generate, NewRoom, HostIn;
    var id := Generate(st.rooms.Keys, st.tomb, FirstTries(q.candidates), now, cfg.tombstoneTtl).1;
    if id.Some? {
      var room := HostIn(NewRoom(cfg, id.value, now, now, OptionalPassword(q.password), q.ip, now), c, q.epoch);
      DeadlineAfterCreate(cfg, id.value, now, OptionalPassword(q.password), q.ip, c, q.epoch);
      NewSame(cfg, id.value, now, now, OptionalPassword(q.password), q.ip, now, c, q.epoch);
      TimedMore(st, room);
    }
  }

  lemma NewSame(cfg: Config, id: string, now: int, createdAt: int, password: Option<string>, ip: string, origin: int,
                c: Conn, epoch: string)
    ensures var room := NewRoom(cfg, id, now, createdAt, password, ip, origin);
            room.roomID == id && HostIn(room, c, epoch).roomID == id
  {
  }

  lemma EnteredExactly(cfg: Config, st: State, c: Conn, q: JoinRequest, ref: nat, now: int)
    requires Numbered(st.heap, st.rooms, st.roomsGlobal) && Timed(st.heap, st.rooms)
    requires ref < |st.heap| && Current(st, ref)
    ensures var (st', reply) := EnterStep(cfg, st, c, q, ref, now);
            Timed(st'.heap, st'.rooms) <==> (reply.Joined? ==> st.heap[ref].host.conn.Some?)
  {
    hide Timed, Numbered, JoinIn, Evict, Insert, DeadlineFits;
    var room := st.heap[ref];
    TimedPut(st, ref, JoinIn(room, c, q.epoch));
    DeadlineAfterJoin(room, c, q.epoch);
    var tried := room.(passwordAttempts := room.passwordAttempts + 1);
    TimedAt(st, room.roomID);
    TriedSame(st, ref);
    TimedPut(st, ref, tried);
    EvictedInTime(Bury(cfg, SetRoom(st, ref, tried), room.roomID, PasswordLockout, now), ref,
                  RoomClosedMsg(PasswordLockout), ClosedRoom);
  }

  lemma TriedSame(st: State, ref: nat)
    requires Numbered(st.heap, st.rooms, st.roomsGlobal) && ref < |st.heap|
    ensures var room := st.heap[ref];
            var tried := room.(passwordAttempts := room.passwordAttempts + 1);
            && (DeadlineFits(tried) <==> DeadlineFits(room))
            && Numbered(st.heap[ref := tried], st.rooms, st.roomsGlobal)
  {
  }

  lemma JoinedExactly(cfg: Config, w: World, c: Conn, q: JoinRequest, now: int)
    requires Linked(w.st) && Numbered(w.st.heap, w.st.rooms, w.st.roomsGlobal) && Timed(w.st.heap, w.st.rooms)
    ensures var st' := JoinStep(cfg, w.st, c, q, now).0;
            Timed(st'.heap, st'.rooms) <==> InTime(cfg, w, JoinRoom(c, q, now))
  {
    hide Timed, Ask, EnterStep;
    if q.id.Some? && q.id.value in w.st.rooms {
      var asked := w.st.(tomb := Ask(w.st.tomb, q.id.value, now, cfg.tombstoneTtl).0);
      EnteredExactly(cfg, asked, c, q, w.st.rooms[q.id.value], now);
    }
  }

  lemma TimedAt(st: State, id: string)
    requires Timed(st.heap, st.rooms) && id in st.rooms
    ensures st.rooms[id] < |st.heap| && DeadlineFits(st.heap[st.rooms[id]])
  {
  }

  lemma RejoinedInTime(cfg: Config, st: State, c: Conn, q: RejoinRequest, now: int)
    requires Linked(st) && Numbered(st.heap, st.rooms, st.roomsGlobal) && Timed(st.heap, st.rooms)
    ensures var st' := RejoinStep(cfg, st, c, q, now).0; Timed(st'.heap, st'.rooms)
  {
    hide Timed, Ask, RejoinIn, NewRoom, DeadlineFits;
    if q.credential.Verified? {
      var t := q.credential.token;
      if t.roomID in st.rooms {
        var ref := st.rooms[t.roomID];
        DeadlineAfterRejoin(cfg, st.heap[ref], t.role, c, q.epoch, false, now);
        TimedPut(st, ref, RejoinIn(cfg, st.heap[ref], t.role, c, q.epoch, false, now));
      } else {
        var empty := NewRoom(cfg, t.roomID, now, t.createdAt * SECOND, t.password, q.ip, t.origin);
        DeadlineAfterRejoin(cfg, empty, t.role, c, q.epoch, true, now);
        TimedMore(st, RejoinIn(cfg, empty, t.role, c, q.epoch, true, now));
      }
    }
  }

  lemma SignalInTime(cfg: Config, room: Room, role: Role, seqNo: int, data: string, now: int)
    ensures DeadlineFits(SignalIn(cfg, room, role, seqNo, data, now).0) <==> DeadlineFits(room)
    ensures DeadlineFits(ReportIn(cfg, room, role, now)) <==> DeadlineFits(room)
  {
  }

  /** Signals, reports and closes by an attached session. */
  lemma SessionsInTime(cfg: Config, st: State, c: Conn, seqNo: int, wellFormed: bool, data: string, now: int)
    requires Linked(st) && Numbered(st.heap, st.rooms, st.roomsGlobal) && Timed(st.heap, st.rooms)
    ensures var st' := SignalStep(cfg, st, c, seqNo, wellFormed, data, now).0; Timed(st'.heap, st'.rooms)
    ensures var st' := ReportStep(cfg, st, c, now).0; Timed(st'.heap, st'.rooms)
    ensures var st' := CloseStep(cfg, st, c, now).0; Timed(st'.heap, st'.rooms)
  {
    hide Timed, SignalIn, ReportIn, Evict, Insert, DeadlineFits;
    if c in st.sessions {
      var a := st.sessions[c];
      var room := st.heap[a.ref];
      if Current(st, a.ref) {
        TimedAt(st, room.roomID);
      }
      SignalInTime(cfg, room, a.role, seqNo, data, now);
      TimedPut(st, a.ref, SignalIn(cfg, room, a.role, seqNo, data, now).0);
      TimedPut(st, a.ref, ReportIn(cfg, room, a.role, now));
      EvictedInTime(Bury(cfg, st, room.roomID, ClosedByPeer, now), a.ref, RoomClosedMsg(ClosedByPeer), ClosedRoom);
    }
  }

  lemma DetachedExactly(cfg: Config, w: World, c: Conn, now: int)
    requires Linked(w.st) && Numbered(w.st.heap, w.st.rooms, w.st.roomsGlobal) && Timed(w.st.heap, w.st.rooms)
    ensures var st' := DetachStep(cfg, w.st, c, now);
            Timed(st'.heap, st'.rooms) <==> InTime(cfg, w, Detach(c, now))
  {
    hide Timed, Numbered, LeaveIn, DeadlineFits, LeavesInTime;
    if c in w.st.sessions {
      var a := w.st.sessions[c];
      var room := w.st.heap[a.ref];
      var (left, gone) := LeaveIn(cfg, room, a.role, c, now);
      LeaveSame(cfg, room, a.role, c, now);
      if gone {
        TimedLess(w.st, a.ref, left);
        GoneInTime(cfg, room, a.role, c, now);
        assert room.roomID !in w.st.rooms ==> w.st.rooms - {room.roomID} == w.st.rooms;
      } else {
        LeftExactly(cfg, room, a.role, c, now);
        TimedPut(w.st, a.ref, left);
      }
    }
  }

  lemma GoneInTime(cfg: Config, room: Room, role: Role, c: Conn, now: int)
    requires LeaveIn(cfg, room, role, c, now).1
    ensures LeavesInTime(cfg, room, role, c, now)
  {
  }

  lemma LeftExactly(cfg: Config, room: Room, role: Role, c: Conn, now: int)
    requires !LeaveIn(cfg, room, role, c, now).1
    ensures DeadlineFits(LeaveIn(cfg, room, role, c, now).0) <==> LeavesInTime(cfg, room, role, c, now)
  {
    hide LeaveIn, DeadlineFits;
    DeadlineAfterLeave(cfg, room, role, c, now);
  }

  /** What a restart brings back, and nothing else, is registered, and none of it fits. */
  lemma {:induction false} RestoredUntimely(cfg: Config, disk: Disk, ids: seq<string>, now: int)
    ensures var st := RestoreAll(cfg, EMPTY_STATE, disk, ids, now).0;
            && (forall id :: id in st.rooms ==> st.rooms[id] < |st.heap| && !DeadlineFits(st.heap[st.rooms[id]]))
            && (st.rooms == map[] <==>
                  forall i :: 0 <= i < |ids| && ids[i] in disk ==> Revived(cfg, disk[ids[i]], now).None?)
    decreases |ids|
  {
    hide DeadlineFits, Revived;
    if ids != [] {
      var before, id := ids[..|ids| - 1], ids[|ids| - 1];
      RestoredUntimely(cfg, disk, before, now);
      assert forall i :: 0 <= i < |before| ==> ids[i] == before[i];
      if id in disk && Revived(cfg, disk[id], now).Some? {
        var room, st := Revived(cfg, disk[id], now).value, RestoreAll(cfg, EMPTY_STATE, disk, before, now).0;
        DeadlineAfterRestore(cfg, disk[id], now);
        assert room.roomID in AddRestored(st, room).rooms;
      }
    }
  }

  lemma RestartedExactly(cfg: Config, w: World, ids: seq<string>, now: int)
    requires Linked(w.st) && ListsFiles(ids, w.disk)
    ensures var st' := RestoreAll(cfg, EMPTY_STATE, w.disk, ids, now).0;
            Timed(st'.heap, st'.rooms) <==> InTime(cfg, w, Restart(ids, now))
  {
    hide DeadlineFits, Revived, RestoreAll;
    RestoredUntimely(cfg, w.disk, ids, now);
    var st' := RestoreAll(cfg, EMPTY_STATE, w.disk, ids, now).0;
    if st'.rooms != map[] {
      var id :| id in st'.rooms;
      assert !Timed(st'.heap, st'.rooms);
    }
  }

  // ---------------------------------------------------------------- runs

  ghost predicate WorldTimed(w: World) {
    Timed(w.st.heap, w.st.rooms)
  }

  /** From a world whose registered rooms all fit, a step leads to another if and only if it is in time. */
  lemma NextTimedExactly(cfg: Config, w: World, a: Action)
    requires WorldOk(cfg, w) && WorldTimed(w)
    ensures WorldTimed(Next(cfg, w, a)) <==> InTime(cfg, w, a)
  {
    hide Timed, Entombed, Fits, Held, TokensOk, DiskOk, CreateStep, JoinStep, RejoinStep, SignalStep, ReportStep,
         CloseStep, DetachStep, Evict, Live, RestoreAll, LeavesInTime, DueFor, Revived, Checked;
    match a
    case CreateRoom(c, q, now) =>
      CreatedInTime(cfg, w.st, c, q, now);
    case JoinRoom(c, q, now) =>
      JoinedExactly(cfg, w, c, q, now);
    case RejoinRoom(c, q, now) =>
      RejoinedInTime(cfg, w.st, c, Checked(w.tokens, q), now);
    case SendSignal(c, seqNo, wellFormed, data, now) =>
      SessionsInTime(cfg, w.st, c, seqNo, wellFormed, data, now);
    case PeerConnected(c, now) =>
      SessionsInTime(cfg, w.st, c, 0, false, "", now);
    case CloseRoom(c, now) =>
      SessionsInTime(cfg, w.st, c, 0, false, "", now);
    case Detach(c, now) =>
      DetachedExactly(cfg, w, c, now);
    case SweepRoom(ref, now) =>
      if ref < |w.st.heap| && DueFor(w.st.heap[ref], now).Some? {
        var (msg, code) := DueFor(w.st.heap[ref], now).value;
        EvictedInTime(w.st, ref, msg, code);
      }
    case SweepTombstones(now) =>
    case ShutDownRoom(ref) =>
      if ref < |w.st.heap| {
        EvictedInTime(w.st, ref, ServerShutdown, ShuttingDown);
      }
    case FlushSave(id) =>
    case FlushDelete(id) =>
    case SpoilFile(id, garbage) =>
    case Restart(ids, now) =>
      if ListsFiles(ids, w.disk) {
        RestartedExactly(cfg, w, ids, now);
      }
  }

  ghost predicate AlwaysTimed(cfg: Config, actions: seq<Action>) {
    forall i :: 0 <= i <= |actions| ==> WorldTimed(Run(cfg, actions[..i]))
  }

  ghost predicate RunInTime(cfg: Config, actions: seq<Action>) {
    forall i :: 0 <= i < |actions| ==> InTime(cfg, Run(cfg, actions[..i]), actions[i])
  }

  /** The deadlines fit at every point of a run if and only if every step of it is in time. */
  lemma {:induction false} RunTimedExactly(cfg: Config, actions: seq<Action>)
    ensures AlwaysTimed(cfg, actions) <==> RunInTime(cfg, actions)
    decreases |actions|
  {
    hide WorldOk, InTime, Next, Timed, WorldTimed;
    if actions == [] {
      assert WorldTimed(EMPTY_WORLD) by { EmptyTimed(); }
    } else {
      var n := |actions| - 1;
      var before := actions[..n];
      assert forall i :: 0 <= i <= n ==> before[..i] == actions[..i];
      assert before == actions[..n] && actions[..n + 1] == actions;
      RunTimedExactly(cfg, before);
      RunPrefix(cfg, actions, n);
      EveryRunIsOk(cfg, before);
      if WorldTimed(Run(cfg, before)) {
        NextTimedExactly(cfg, Run(cfg, before), actions[n]);
      }
      LongerTimed(cfg, actions);
    }
  }

  lemma LongerTimed(cfg: Config, actions: seq<Action>)
    requires actions != []
    ensures var before := actions[..|actions| - 1];
            && (RunInTime(cfg, actions) <==>
                  RunInTime(cfg, before) && InTime(cfg, Run(cfg, before), actions[|actions| - 1]))
            && (AlwaysTimed(cfg, actions) <==> AlwaysTimed(cfg, before) && WorldTimed(Run(cfg, actions)))
            && (AlwaysTimed(cfg, before) ==> WorldTimed(Run(cfg, before)))
  {
    hide InTime, Run, WorldTimed;
    var n := |actions| - 1;
    var before := actions[..n];
    assert forall i :: 0 <= i <= n ==> before[..i] == actions[..i];
    assert actions[..n + 1] == actions && before[..n] == before;
  }

  lemma EmptyTimed()
    ensures WorldTimed(EMPTY_WORLD)
  {
  }

  // ---------------------------------------------------------------- a run that is not in time

  /** The host leaves before its guest comes. */
  const LATE_GUEST_RUN: seq<Action> := [
    CreateRoom(1, OPEN_HOST, 0),
    Detach(1, 0),
    JoinRoom(2, JoinRequest(Some("a00000"), "g", "", true), 0)]

  /** Under every configuration with room for one, this run ends with a guest waiting alone in a registered
      room that has no deadline. */
  lemma LateGuestRun(cfg: Config)
    requires cfg.maxRoomsGlobal > 0
    ensures var st := Run(cfg, LATE_GUEST_RUN).st;
            && st.heap != [] && Current(st, 0) && !DeadlineFits(st.heap[0])
            && st.heap[0].host.conn.None? && st.heap[0].guest.conn == Some(2)
    ensures !RunInTime(cfg, LATE_GUEST_RUN)
  {
    hide Run, Standing, DeadlineFits, JoinIn, RunInTime, HostIn, NewRoom;
    var all := LATE_GUEST_RUN;
    var room := HostIn(NewRoom(cfg, "a00000", 0, 0, None, "", 0), 1, "h");
    StaleOpening(cfg);
    HostLeaves(cfg, [all[0]], room);
    var left := LeaveIn(cfg, room, Host, 1, 0).0;
    assert left.host.conn.None? && left.guest.conn.None? by { AloneLeaves(cfg); }
    StaleJoin(cfg, [all[0]] + [all[1]], left);
    DeadlineAfterJoin(left, 2, "g");
    assert [all[0]] + [all[1]] + [all[2]] == all;
    StandingIsCurrent(Run(cfg, all), JoinIn(left, 2, "g"), 2);
    JoinedSlots(left, 2, "g");
    RunTimedExactly(cfg, all);
    assert all[..3] == all;
    assert !WorldTimed(Run(cfg, all[..3]));
  }

  lemma StandingIsCurrent(w: World, room: Room, c: Conn)
    requires Standing(w, room, c)
    ensures w.st.heap == [room] && Current(w.st, 0)
    ensures WorldTimed(w) ==> DeadlineFits(room)
  {
    hide DeadlineFits;
  }

  lemma JoinedSlots(room: Room, c: Conn, epoch: string)
    ensures JoinIn(room, c, epoch).guest.conn == Some(c) && JoinIn(room, c, epoch).host.conn == room.host.conn
  {
  }

  lemma AloneLeaves(cfg: Config)
    ensures var room := HostIn(NewRoom(cfg, "a00000", 0, 0, None, "", 0), 1, "h");
            var left := LeaveIn(cfg, room, Host, 1, 0).0;
            && !LeaveIn(cfg, room, Host, 1, 0).1
            && left.host.conn.None? && left.guest.conn.None? && TokenFor(left, Guest) == TokenFor(room, Guest)
            && left.roomID == room.roomID
  {
  }

  lemma HostLeaves(cfg: Config, actions: seq<Action>, room: Room)
    requires room == HostIn(NewRoom(cfg, "a00000", 0, 0, None, "", 0), 1, "h")
    requires Standing(Run(cfg, actions), room, 1)
    requires var st := Run(cfg, actions).st; 1 in st.sessions && st.sessions[1] == Attached(0, Host)
    ensures Standing(Run(cfg, actions + [Detach(1, 0)]), LeaveIn(cfg, room, Host, 1, 0).0, 1)
  {
    hide Run, LeaveIn, HostIn, NewRoom;
    RunMore(cfg, actions, Detach(1, 0));
    AloneLeaves(cfg);
  }
}
