/** What holds in every run of the registry. */
module RoomTheorems {
  import opened Options
  import opened LruSpec
  import opened Tombstone
  import opened RoomModel
  import opened RoomRules
  import opened RoomInvariants
  import opened RoomSweep
  import opened RoomRuns

  // ---------------------------------------------------------------- counting, tombstones, lifetimes

  /** The global counter is the number of registered rooms. */
  lemma CountIsExact(cfg: Config, actions: seq<Action>)
    ensures var st := Run(cfg, actions).st; st.roomsGlobal == |st.rooms|
  {
    hide Run, Fits, Held, Entombed, TokensOk, DiskOk;
    EveryRunIsOk(cfg, actions);
  }

  /** An id with a resident tombstone names no room. */
  lemma ClosedStaysClosed(cfg: Config, actions: seq<Action>, id: string)
    requires Resident(Run(cfg, actions).st.tomb, id)
    ensures id !in Run(cfg, actions).st.rooms
  {
    hide Run, Core, TokensOk, DiskOk, Resident;
    EveryRunIsOk(cfg, actions);
    assert id in Run(cfg, actions).st.rooms.Keys ==> !Resident(Run(cfg, actions).st.tomb, id);
  }

  /** Closing a room buries its id, as closed by a peer and at that time, and takes it off the register. */
  lemma ClosingBuries(cfg: Config, actions: seq<Action>, c: Conn, now: int)
    requires c in Run(cfg, actions).st.sessions
    ensures var st := Run(cfg, actions).st;
            var st' := CloseStep(cfg, st, c, now).0;
            && st.sessions[c].ref < |st.heap|
            && Lookup(st'.tomb, st.heap[st.sessions[c].ref].roomID) == Some(Entry(now, ClosedByPeer))
            && st.heap[st.sessions[c].ref].roomID !in st'.rooms
  {
    hide Run, TokensOk, DiskOk, CloseAt, Lookup, Insert, Core;
    EveryRunIsOk(cfg, actions);
    var w := Run(cfg, actions);
    InvLinked(cfg, w.births, w.st);
    var ref := w.st.sessions[c].ref;
    CloseKeeps(cfg, w.births, w.st, ref, ClosedByPeer, now);
    CloseBuries(cfg, w.st, ref, ClosedByPeer, now);
    BuryMarks(w.st.tomb, w.st.heap[ref].roomID, Entry(now, ClosedByPeer), cfg.tombstoneCapacity);
  }

  lemma CloseBuries(cfg: Config, st: State, ref: nat, reason: Reason, now: int)
    requires ref < |st.heap|
    ensures CloseAt(cfg, st, ref, reason, now).tomb ==
              Insert(st.tomb, st.heap[ref].roomID, Entry(now, reason), cfg.tombstoneCapacity)
  {
    hide Insert, ClearIn;
  }

  /** Step i of the run creates room id at that time, protected by that password or by none. */
  ghost predicate BornIn(cfg: Config, actions: seq<Action>, i: nat, id: string, at: int, password: Option<string>)
    requires i < |actions|
  {
    && actions[i].CreateRoom? && actions[i].now == at && Protects(password, actions[i].create.password)
    && CreateStep(cfg, Run(cfg, actions[..i]).st, actions[i].c, actions[i].create, at).1.Created?
    && CreateStep(cfg, Run(cfg, actions[..i]).st, actions[i].c, actions[i].create, at).1.roomID == id
  }

  /** The recorded births are the host tokens of the successful creations of the run. */
  lemma {:induction false} BirthsAreCreations(cfg: Config, actions: seq<Action>, t: Token)
    requires t in Run(cfg, actions).births
    ensures exists i: nat :: i < |actions| && BornIn(cfg, actions, i, t.roomID, t.origin, t.password)
    decreases |actions|
  {
    hide Inv, TokensOk, DiskOk, CreateStep, JoinStep, RejoinStep, SignalStep, ReportStep, CloseStep, DetachStep,
         EvictFor, Live, RestoreAll, TokenDated, Protects;
    if actions != [] {
      var before, last := actions[..|actions| - 1], actions[|actions| - 1];
      if t in Run(cfg, before).births {
        BirthsAreCreations(cfg, before, t);
        var i: nat :| i < |before| && BornIn(cfg, before, i, t.roomID, t.origin, t.password);
        assert actions[..i] == before[..i];
        assert BornIn(cfg, actions, i, t.roomID, t.origin, t.password);
      } else {
        var w := Run(cfg, before);
        EveryRunIsOk(cfg, before);
        CreateKeeps(cfg, w.births, w.st, last.c, last.create, last.now);
        assert BornIn(cfg, actions, |actions| - 1, t.roomID, t.origin, t.password);
      }
    }
  }

  /** A room is protected by the password its lineage was created with, through any chain of recreations,
      tokens and restarts. It ends one room lifetime after it was last set up or one token lifetime after
      the creation it descends from, whichever comes first; its peer deadline is never later. */
  lemma LifetimeIsBounded(cfg: Config, actions: seq<Action>, ref: nat)
    requires ref < |Run(cfg, actions).st.heap|
    ensures var room := Run(cfg, actions).st.heap[ref];
            && Earlier(room.expiresAt, room.instantiatedAt + cfg.roomMaxLifetime,
                       room.createdAt + cfg.rejoinTokenTtl)
            && room.expiresAt <= room.origin + cfg.rejoinTokenTtl
            && (room.peerDeadlineAt.Some? ==> room.peerDeadlineAt.value <= room.expiresAt)
            && room.origin - SECOND < room.createdAt <= room.origin
            && exists i: nat :: i < |actions| && BornIn(cfg, actions, i, room.roomID, room.origin, room.password)
  {
    hide Run, Held, Numbered, Entombed, TokensOk, DiskOk, Accounted, Protects;
    EveryRunIsOk(cfg, actions);
    var w := Run(cfg, actions);
    FitsAt(cfg, w.births, w.st.heap, w.st.sessions, ref);
    BirthsAreCreations(cfg, actions, TokenFor(w.st.heap[ref], Host));
    WithinOneSecond(w.st.heap[ref].createdAt, w.st.heap[ref].origin);
  }

  lemma WithinOneSecond(a: int, b: int)
    requires a / SECOND == b / SECOND
    ensures b - SECOND < a
  {
  }

  /** A token, whatever chain of rooms issued it, dates from its lineage's creation to the second, so
      no rejoin is accepted later than one token lifetime after that creation. */
  lemma TokensDateFromCreation(cfg: Config, actions: seq<Action>, t: Token, now: int)
    requires t in Run(cfg, actions).tokens && !TokenExpired(t, now, cfg.rejoinTokenTtl)
    ensures now <= t.origin + cfg.rejoinTokenTtl
    ensures exists i: nat :: i < |actions| && BornIn(cfg, actions, i, t.roomID, t.origin, t.password)
  {
    hide Run, Inv, DiskOk;
    EveryRunIsOk(cfg, actions);
    BirthsAreCreations(cfg, actions, t.(role := Host));
    OriginFromToken(t);
  }

  /** Every slot's buffer, in every room there ever was, is counted and bounded. */
  lemma BuffersAreAccounted(cfg: Config, actions: seq<Action>, ref: nat, role: Role)
    requires ref < |Run(cfg, actions).st.heap|
    ensures Accounted(cfg, Run(cfg, actions).st.heap[ref].At(role), role.Other())
  {
    hide Run, Held, Numbered, Entombed, TokensOk, DiskOk, Accounted, Dated;
    EveryRunIsOk(cfg, actions);
    var w := Run(cfg, actions);
    FitsAt(cfg, w.births, w.st.heap, w.st.sessions, ref);
  }

  // ---------------------------------------------------------------- slots and sessions

  /** A connection in a slot belongs to a session attached to exactly that room and role, so it is in
      at most one slot anywhere, registered or not. */
  lemma OneSlotPerConnection(cfg: Config, actions: seq<Action>, c: Conn, ref: nat, role: Role, ref': nat, role': Role)
    requires ref < |Run(cfg, actions).st.heap| && ref' < |Run(cfg, actions).st.heap|
    requires Run(cfg, actions).st.heap[ref].At(role).conn == Some(c)
    requires Run(cfg, actions).st.heap[ref'].At(role').conn == Some(c)
    ensures ref == ref' && role == role'
    ensures c in Run(cfg, actions).st.sessions && Run(cfg, actions).st.sessions[c] == Attached(ref, role)
  {
    hide Run, Held, Numbered, Entombed, TokensOk, DiskOk, RoomOk;
    EveryRunIsOk(cfg, actions);
    var w := Run(cfg, actions);
    FitsAt(cfg, w.births, w.st.heap, w.st.sessions, ref);
    FitsAt(cfg, w.births, w.st.heap, w.st.sessions, ref');
  }

  /** An attached session that does not hold its slot has been closed by the server. */
  lemma UnseatedIsClosing(cfg: Config, actions: seq<Action>, c: Conn)
    requires c in Run(cfg, actions).st.sessions
    ensures var st := Run(cfg, actions).st;
            var a := st.sessions[c];
            a.ref < |st.heap| && (st.heap[a.ref].At(a.role).conn == Some(c) || c in st.closing)
  {
    hide Run, Fits, Numbered, Entombed, TokensOk, DiskOk;
    EveryRunIsOk(cfg, actions);
    assert HeldOrClosing(Run(cfg, actions).st.heap, Run(cfg, actions).st.closing, c, Run(cfg, actions).st.sessions[c]);
  }

  /** A detach, however late, empties the slots of its own connection and no other. */
  lemma DetachUnseatsOnlyItself(cfg: Config, actions: seq<Action>, c: Conn, now: int, ref: nat, role: Role)
    requires ref < |Run(cfg, actions).st.heap|
    ensures var st := Run(cfg, actions).st;
            var st' := DetachStep(cfg, st, c, now);
            && c !in st'.sessions && ref < |st'.heap|
            && st'.heap[ref].At(role).conn ==
                 (if st.heap[ref].At(role).conn == Some(c) then None else st.heap[ref].At(role).conn)
  {
    hide Run, Held, Numbered, Entombed, TokensOk, DiskOk, RoomOk, LeaveIn;
    EveryRunIsOk(cfg, actions);
    var w := Run(cfg, actions);
    FitsAt(cfg, w.births, w.st.heap, w.st.sessions, ref);
    InvLinked(cfg, w.births, w.st);
    if c in w.st.sessions {
      var a := w.st.sessions[c];
      LeaveConns(cfg, w.st.heap[a.ref], a.role, c, now);
    }
  }

  // ---------------------------------------------------------------- refusals

  /** What a refused handshake may leave behind: refreshed or forgotten tombstones, nothing else. */
  lemma RefusedCreateRollsBack(cfg: Config, st: State, c: Conn, q: CreateRequest, now: int)
    requires !CreateStep(cfg, st, c, q, now).1.Created?
    ensures CreateStep(cfg, st, c, q, now).0 == st.(tomb := CreateStep(cfg, st, c, q, now).0.tomb)
  {
    hide Generate;
  }

  lemma RefusedRejoinRollsBack(cfg: Config, st: State, c: Conn, q: RejoinRequest, now: int)
    requires Linked(st) && !RejoinStep(cfg, st, c, q, now).1.Rejoined?
    ensures RejoinStep(cfg, st, c, q, now).0 == st.(tomb := RejoinStep(cfg, st, c, q, now).0.tomb)
  {
    hide Ask, RejoinIn, NewRoom;
  }

  // ---------------------------------------------------------------- delivery order

  ghost predicate HeapInOrder(heap: seq<Room>) {
    forall ref :: 0 <= ref < |heap| ==> InOrder(heap[ref])
  }

  ghost predicate SnapshotInOrder(s: RoomSnapshot) {
    Unmarshal(s).Some? ==> InOrder(Unmarshal(s).value)
  }

  ghost predicate DiskInOrder(disk: Disk) {
    forall id :: id in disk ==> SnapshotInOrder(disk[id])
  }

  ghost predicate WorldInOrder(w: World) {
    HeapInOrder(w.st.heap) && DiskInOrder(w.disk)
  }

  /** If the attach is accepted, in a room that is there, its epoch does not collide with what the
      peer has heard or may be replayed. A refused attach and a recreated room cannot collide. */
  ghost predicate FreshAttach(cfg: Config, w: World, a: Action)
    requires Linked(w.st)
  {
    match a
    case JoinRoom(c, q, now) =>
      JoinStep(cfg, w.st, c, q, now).1.Joined? && q.id.Some? && q.id.value in w.st.rooms ==>
        JoinFresh(w.st.heap[w.st.rooms[q.id.value]], q.epoch)
    case RejoinRoom(c, q, now) =>
      var checked := Checked(w.tokens, q);
      (RejoinStep(cfg, w.st, c, checked, now).1.Rejoined?
       && checked.credential.Verified? && checked.credential.token.roomID in w.st.rooms) ==>
        var t := checked.credential.token;
        RejoinFresh(w.st.heap[w.st.rooms[t.roomID]], t.role, q.epoch, false)
    case _ => true
  }

  ghost predicate FreshRun(cfg: Config, actions: seq<Action>) {
    forall i :: 0 <= i < |actions| ==> FreshAttach(cfg, Run(cfg, actions[..i]), actions[i])
  }

  ghost predicate AlwaysInOrder(cfg: Config, actions: seq<Action>) {
    forall i :: 0 <= i <= |actions| ==> WorldInOrder(Run(cfg, actions[..i]))
  }

  lemma OrderPut(heap: seq<Room>, ref: nat, room: Room)
    requires HeapInOrder(heap) && ref < |heap|
    ensures HeapInOrder(heap[ref := room]) <==> InOrder(room)
  {
    hide InOrder;
    assert heap[ref := room][ref] == room;
  }

  lemma OrderMore(heap: seq<Room>, room: Room)
    requires HeapInOrder(heap) && InOrder(room)
    ensures HeapInOrder(heap + [room])
  {
    hide InOrder;
  }

  lemma OrderAt(heap: seq<Room>, ref: nat)
    requires HeapInOrder(heap) && ref < |heap|
    ensures InOrder(heap[ref])
  {
    hide InOrder;
  }

  lemma NewRoomInOrder(cfg: Config, id: string, now: int, createdAt: int, password: Option<string>, ip: string,
                       origin: int, c: Conn, role: Role, epoch: string)
    requires epoch != ""
    ensures var room := NewRoom(cfg, id, now, createdAt, password, ip, origin);
            InOrder(HostIn(room, c, epoch)) && InOrder(RejoinIn(cfg, room, role, c, epoch, true, now))
  {
    var room := NewRoom(cfg, id, now, createdAt, password, ip, origin);
    assert Replayed([]) == [];
    RejoinOrderExactly(cfg, room, role, c, epoch, true, now);
  }

  lemma EvictKeepsOrder(st: State, ref: nat, cause: Cause)
    requires HeapInOrder(st.heap) && ref < |st.heap| && Quiet(cause)
    ensures HeapInOrder(EvictFor(st, ref, cause).heap)
  {
    hide InOrder, ClearIn;
    var room := st.heap[ref];
    if cause(room).Some? {
      ClearKeepsOrder(room, cause(room).value.0);
      OrderPut(st.heap, ref, ClearIn(room, cause(room).value.0));
    }
  }

  lemma JoinStepOrderExactly(cfg: Config, w: World, c: Conn, q: JoinRequest, now: int)
    requires Linked(w.st) && HeapInOrder(w.st.heap)
    ensures HeapInOrder(JoinStep(cfg, w.st, c, q, now).0.heap) <==> FreshAttach(cfg, w, JoinRoom(c, q, now))
  {
    hide InOrder, HeapInOrder, JoinFresh, Ask, ClearIn, JoinIn, Insert;
    var st := w.st;
    if q.id.Some? && q.id.value in st.rooms {
      var ref := st.rooms[q.id.value];
      var room := st.heap[ref];
      OrderAt(st.heap, ref);
      JoinOrderExactly(room, c, q.epoch);
      OrderPut(st.heap, ref, JoinIn(room, c, q.epoch));
      var tried := room.(passwordAttempts := room.passwordAttempts + 1);
      AttemptKeepsOrder(room);
      OrderPut(st.heap, ref, tried);
      ClearKeepsOrder(tried, RoomClosedMsg(PasswordLockout));
      OrderPut(st.heap[ref := tried], ref, ClearIn(tried, RoomClosedMsg(PasswordLockout)));
    }
  }

  lemma AttemptKeepsOrder(room: Room)
    requires InOrder(room)
    ensures InOrder(room.(passwordAttempts := room.passwordAttempts + 1))
  {
    hide Hears;
  }

  lemma RejoinStepOrderExactly(cfg: Config, w: World, c: Conn, q: RejoinRequest, now: int)
    requires Linked(w.st) && HeapInOrder(w.st.heap)
    ensures HeapInOrder(RejoinStep(cfg, w.st, c, Checked(w.tokens, q), now).0.heap) <==>
              FreshAttach(cfg, w, RejoinRoom(c, q, now))
  {
    hide InOrder, HeapInOrder, RejoinFresh, Ask, RejoinIn, NewRoom, Checked;
    var st, q' := w.st, Checked(w.tokens, q);
    CheckedSame(w.tokens, q);
    if q'.credential.Verified? && !BadEpoch(q.epoch) {
      var t := q'.credential.token;
      if t.roomID in st.rooms {
        var ref := st.rooms[t.roomID];
        OrderAt(st.heap, ref);
        RejoinOrderExactly(cfg, st.heap[ref], t.role, c, q.epoch, false, now);
        OrderPut(st.heap, ref, RejoinIn(cfg, st.heap[ref], t.role, c, q.epoch, false, now));
      } else {
        var empty := NewRoom(cfg, t.roomID, now, t.createdAt * SECOND, t.password, q.ip, t.origin);
        NewRoomInOrder(cfg, t.roomID, now, t.createdAt * SECOND, t.password, q.ip, t.origin, c, t.role, q.epoch);
        OrderMore(st.heap, RejoinIn(cfg, empty, t.role, c, q.epoch, true, now));
      }
    }
  }

  lemma CheckedSame(tokens: set<Token>, q: RejoinRequest)
    ensures Checked(tokens, q) == q.(credential := Checked(tokens, q).credential)
    ensures q.credential.Verified? && q.credential.token in tokens ==> Checked(tokens, q) == q
  {
  }

  lemma CreateStepKeepsOrder(cfg: Config, st: State, c: Conn, q: CreateRequest, now: int)
    requires HeapInOrder(st.heap)
    ensures HeapInOrder(CreateStep(cfg, st, c, q, now).0.heap)
  {
    hide InOrder, HeapInOrder, Generate, NewRoom, HostIn;
    var id := Generate(st.rooms.Keys, st.tomb, FirstTries(q.candidates), now, cfg.tombstoneTtl).1;
    if id.Some? && !BadEpoch(q.epoch) {
      var empty := NewRoom(cfg, id.value, now, now, OptionalPassword(q.password), q.ip, now);
      NewRoomInOrder(cfg, id.value, now, now, OptionalPassword(q.password), q.ip, now, c, Host, q.epoch);
      OrderMore(st.heap, HostIn(empty, c, q.epoch));
    }
  }

  /** The handlers of an attached session. */
  lemma SessionStepsKeepOrder(cfg: Config, st: State, c: Conn, seqNo: int, wellFormed: bool, data: string, now: int)
    requires Linked(st) && HeapInOrder(st.heap)
    ensures HeapInOrder(SignalStep(cfg, st, c, seqNo, wellFormed, data, now).0.heap)
    ensures HeapInOrder(ReportStep(cfg, st, c, now).0.heap)
    ensures HeapInOrder(CloseStep(cfg, st, c, now).0.heap)
    ensures HeapInOrder(DetachStep(cfg, st, c, now).heap)
  {
    hide InOrder, HeapInOrder, SignalIn, ReportIn, LeaveIn, ClearIn, Insert;
    if c in st.sessions {
      var a := st.sessions[c];
      var room := st.heap[a.ref];
      OrderAt(st.heap, a.ref);
      SignalKeepsOrder(cfg, room, a.role, seqNo, data, now);
      OrderPut(st.heap, a.ref, SignalIn(cfg, room, a.role, seqNo, data, now).0);
      ReportKeepsOrder(cfg, room, a.role, now);
      OrderPut(st.heap, a.ref, ReportIn(cfg, room, a.role, now));
      ClearKeepsOrder(room, RoomClosedMsg(ClosedByPeer));
      OrderPut(st.heap, a.ref, ClearIn(room, RoomClosedMsg(ClosedByPeer)));
      LeaveKeepsOrder(cfg, room, a.role, c, now);
      OrderPut(st.heap, a.ref, LeaveIn(cfg, room, a.role, c, now).0);
    }
  }

  lemma {:induction false} RestoreKeepsOrder(cfg: Config, births: Births, disk: Disk, ids: seq<string>, now: int)
    requires DiskOk(cfg, births, disk) && DiskInOrder(disk)
    ensures var (st, disk') := RestoreAll(cfg, EMPTY_STATE, disk, ids, now);
            HeapInOrder(st.heap) && DiskInOrder(disk')
    decreases |ids|
  {
    hide InOrder, RoomOk, Revived;
    if ids != [] {
      var id, before := ids[|ids| - 1], ids[..|ids| - 1];
      RestoreKeepsOrder(cfg, births, disk, before, now);
      var (st, disk') := RestoreAll(cfg, EMPTY_STATE, disk, before, now);
      if id in disk && Revived(cfg, disk[id], now).Some? {
        assert SnapshotOk(cfg, births, id, disk[id]) && SnapshotInOrder(disk[id]);
        RevivedKeepsRoom(cfg, disk[id], now);
        OrderMore(st.heap, Revived(cfg, disk[id], now).value);
      }
    }
  }

  lemma SaveKeepsOrder(cfg: Config, w: World, id: string)
    requires WorldOk(cfg, w) && WorldInOrder(w) && id in w.st.rooms
    ensures DiskInOrder(w.disk[id := Marshal(w.st.heap[w.st.rooms[id]])])
  {
    hide InOrder, RoomOk, Held, Entombed, TokensOk, DiskOk;
    var room := w.st.heap[w.st.rooms[id]];
    FitsAt(cfg, w.births, w.st.heap, w.st.sessions, w.st.rooms[id]);
    OrderAt(w.st.heap, w.st.rooms[id]);
    SnapshotKeepsRoom(cfg, room);
    assert SnapshotInOrder(Marshal(room));
  }

  lemma DiskOrderLess(disk: Disk, id: string)
    requires DiskInOrder(disk)
    ensures DiskInOrder(disk - {id})
  {
    hide SnapshotInOrder;
  }

  /** A step from a world in order leads to one if and only if it is fresh. */
  lemma NextOrderExactly(cfg: Config, w: World, a: Action)
    requires WorldOk(cfg, w) && WorldInOrder(w)
    ensures WorldInOrder(Next(cfg, w, a)) <==> FreshAttach(cfg, w, a)
  {
    hide HeapInOrder, DiskInOrder, Inv, TokensOk, DiskOk, CreateStep, JoinStep, RejoinStep, SignalStep, ReportStep,
         CloseStep, DetachStep, EvictFor, Live, RestoreAll, JoinFresh, RejoinFresh, Quiet, DueAt;
    match a
    case CreateRoom(c, q, now) =>
      CreateStepKeepsOrder(cfg, w.st, c, q, now);
    case JoinRoom(c, q, now) =>
      JoinStepOrderExactly(cfg, w, c, q, now);
    case RejoinRoom(c, q, now) =>
      RejoinStepOrderExactly(cfg, w, c, q, now);
    case SendSignal(c, seqNo, wellFormed, data, now) =>
      SessionStepsKeepOrder(cfg, w.st, c, seqNo, wellFormed, data, now);
    case PeerConnected(c, now) =>
      SessionStepsKeepOrder(cfg, w.st, c, 0, false, "", now);
    case CloseRoom(c, now) =>
      SessionStepsKeepOrder(cfg, w.st, c, 0, false, "", now);
    case Detach(c, now) =>
      SessionStepsKeepOrder(cfg, w.st, c, 0, false, "", now);
    case SweepRoom(ref, now) =>
      if ref < |w.st.heap| {
        DueIsCaused(now);
        EvictKeepsOrder(w.st, ref, DueAt(now));
      }
    case SweepTombstones(now) =>
    case ShutDownRoom(ref) =>
      if ref < |w.st.heap| {
        ShutdownIsQuiet();
        EvictKeepsOrder(w.st, ref, ShuttingDownAll());
      }
    case FlushSave(id) =>
      if id in w.st.rooms {
        SaveKeepsOrder(cfg, w, id);
      } else {
        DiskOrderLess(w.disk, id);
      }
    case FlushDelete(id) =>
      DiskOrderLess(w.disk, id);
    case SpoilFile(id, garbage) =>
      if Unmarshal(garbage).None? {
        SpoilKeepsOrder(w.disk, id, garbage);
      }
    case Restart(ids, now) =>
      RestoreKeepsOrder(cfg, w.births, w.disk, ids, now);
  }

  lemma SpoilKeepsOrder(disk: Disk, id: string, garbage: RoomSnapshot)
    requires DiskInOrder(disk) && Unmarshal(garbage).None?
    ensures DiskInOrder(disk[id := garbage])
  {
    hide InOrder;
  }

  lemma ShutdownIsQuiet()
    ensures Quiet(ShuttingDownAll())
  {
  }

  lemma RunPrefix(cfg: Config, actions: seq<Action>, i: nat)
    requires i < |actions|
    ensures Run(cfg, actions[..i + 1]) == Next(cfg, Run(cfg, actions[..i]), actions[i])
  {
    assert actions[..i + 1][..i] == actions[..i];
  }

  /** A run is in order at every point if and only if every attach in it is fresh. */
  lemma {:induction false} RunOrderExactly(cfg: Config, actions: seq<Action>)
    ensures AlwaysInOrder(cfg, actions) <==> FreshRun(cfg, actions)
    decreases |actions|
  {
    hide WorldOk, FreshAttach, Next, InOrder, WorldInOrder;
    if actions == [] {
      assert WorldInOrder(EMPTY_WORLD) by { EmptyInOrder(); }
    } else {
      var n := |actions| - 1;
      var before := actions[..n];
      assert forall i :: 0 <= i <= n ==> before[..i] == actions[..i];
      assert before == actions[..n] && actions[..n + 1] == actions;
      RunOrderExactly(cfg, before);
      RunPrefix(cfg, actions, n);
      EveryRunIsOk(cfg, before);
      if WorldInOrder(Run(cfg, before)) {
        NextOrderExactly(cfg, Run(cfg, before), actions[n]);
      }
      LongerRun(cfg, actions);
    }
  }

  /** Both are about one point more than for the run without its last step. */
  lemma LongerRun(cfg: Config, actions: seq<Action>)
    requires actions != []
    ensures var before := actions[..|actions| - 1];
            && (FreshRun(cfg, actions) <==>
                  FreshRun(cfg, before) && FreshAttach(cfg, Run(cfg, before), actions[|actions| - 1]))
            && (AlwaysInOrder(cfg, actions) <==> AlwaysInOrder(cfg, before) && WorldInOrder(Run(cfg, actions)))
            && (AlwaysInOrder(cfg, before) ==> WorldInOrder(Run(cfg, before)))
  {
    hide FreshAttach, Run, WorldInOrder;
    var n := |actions| - 1;
    var before := actions[..n];
    assert forall i :: 0 <= i <= n ==> before[..i] == actions[..i];
    assert actions[..n + 1] == actions && before[..n] == before;
  }

  lemma EmptyInOrder()
    ensures WorldInOrder(EMPTY_WORLD)
  {
  }

  /** In a run whose attaches are fresh, what a connection hears while it holds a slot, replayed or
      live, rises along every stream, and comes from the other role. */
  lemma DeliveryOrder(cfg: Config, actions: seq<Action>, ref: nat, role: Role)
    requires FreshRun(cfg, actions) && ref < |Run(cfg, actions).st.heap|
    ensures var slot := Run(cfg, actions).st.heap[ref].At(role);
            && Rising(slot.log)
            && (slot.conn.Some? ==>
                  forall i :: 0 <= i < |slot.log| && slot.log[i].Heard? ==> slot.log[i].signal.fromRole == role.Other())
  {
    hide Run, FreshRun, Rising;
    RunOrderExactly(cfg, actions);
    assert actions[..|actions|] == actions;
    assert WorldInOrder(Run(cfg, actions[..|actions|]));
    OrderAt(Run(cfg, actions).st.heap, ref);
  }
}
