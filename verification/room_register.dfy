/** Which ids are registered, in every run, and how wrong guesses at a password take one off the register. */
module RoomRegister {
  import opened LruSpec
  import opened Tombstone
  import opened RoomModel
  import opened RoomRules
  import opened RoomInvariants
  import opened RoomSweep
  import opened RoomRuns
  import opened RoomEpochs
  import opened RoomAdmission
  import opened RoomEffects
  import opened RoomTimes

  // ---------------------------------------------------------------- registered ids

  /** A step leaves each registered id where it was, takes it off, or registers the new room under it. */
  ghost predicate Registers(st: State, st': State) {
    forall id :: id in st'.rooms ==>
      || (id in st.rooms && st'.rooms[id] == st.rooms[id])
      || (st'.rooms[id] == |st.heap| && |st'.heap| == |st.heap| + 1)
  }

  lemma EvictRegisters(st: State, at: nat, msg: Msg, code: CloseCode)
    requires at < |st.heap|
    ensures Registers(st, Evict(st, at, msg, code))
  {
    hide ClearIn;
  }

  lemma CreateRegisters(cfg: Config, st: State, c: Conn, q: CreateRequest, now: int)
    ensures Registers(st, CreateStep(cfg, st, c, q, now).0)
  {
    hide Generate, NewRoom, HostIn;
  }

  lemma JoinRegisters(cfg: Config, st: State, c: Conn, q: JoinRequest, now: int)
    requires Linked(st)
    ensures Registers(st, JoinStep(cfg, st, c, q, now).0)
  {
    hide Ask, JoinIn, Evict, Insert, Registers;
    AsRegistered(st, st);
    if q.id.Some? {
      var asked := st.(tomb := Ask(st.tomb, q.id.value, now, cfg.tombstoneTtl).0);
      AsRegistered(st, asked);
      if q.id.value in st.rooms {
        var ref := st.rooms[q.id.value];
        var room := st.heap[ref];
        AsRegistered(st, AttachAt(asked, c, ref, Guest, JoinIn(room, c, q.epoch)));
        var tried := SetRoom(asked, ref, room.(passwordAttempts := room.passwordAttempts + 1));
        AsRegistered(st, tried);
        var buried := Bury(cfg, tried, room.roomID, PasswordLockout, now);
        EvictRegisters(buried, ref, RoomClosedMsg(PasswordLockout), ClosedRoom);
        RegistersToo(st, buried, Evict(buried, ref, RoomClosedMsg(PasswordLockout), ClosedRoom));
      }
    }
  }

  lemma AsRegistered(st: State, st': State)
    requires st'.rooms == st.rooms
    ensures Registers(st, st')
  {
  }

  lemma RegistersToo(st: State, st1: State, st2: State)
    requires st1.rooms == st.rooms && |st1.heap| == |st.heap| && Registers(st1, st2)
    ensures Registers(st, st2)
  {
  }

  lemma RejoinRegisters(cfg: Config, st: State, c: Conn, q: RejoinRequest, now: int)
    requires Linked(st)
    ensures Registers(st, RejoinStep(cfg, st, c, q, now).0)
  {
    hide Ask, RejoinIn, NewRoom;
    if q.credential.Verified? && q.credential.token.roomID !in st.rooms {
      RejoinKeepsId(cfg, q.credential.token, q, c, now);
    }
  }

  lemma RejoinKeepsId(cfg: Config, t: Token, q: RejoinRequest, c: Conn, now: int)
    ensures var empty := NewRoom(cfg, t.roomID, now, t.createdAt * SECOND, t.password, q.ip, t.origin);
            RejoinIn(cfg, empty, t.role, c, q.epoch, true, now).roomID == t.roomID
  {
  }

  lemma SessionRegisters(cfg: Config, w: World, a: Action)
    requires Linked(w.st) && (a.SendSignal? || a.PeerConnected? || a.CloseRoom? || a.Detach?)
    ensures Registers(w.st, Next(cfg, w, a).st)
  {
    hide SignalIn, ReportIn, LeaveIn, ClearIn, Insert, CreateStep, JoinStep, RejoinStep, RestoreAll, EvictFor, Live,
         Marshal, Unmarshal;
  }

  lemma NextRegisters(cfg: Config, w: World, a: Action)
    requires Linked(w.st) && !a.Restart?
    ensures Registers(w.st, Next(cfg, w, a).st)
  {
    hide CreateStep, JoinStep, RejoinStep, SignalStep, ReportStep, CloseStep, DetachStep, Evict, Live, Marshal,
         Unmarshal, DueFor, RestoreAll, Registers;
    AsRegistered(w.st, w.st);
    match a
    case CreateRoom(c, q, now) => CreateRegisters(cfg, w.st, c, q, now);
    case JoinRoom(c, q, now) => JoinRegisters(cfg, w.st, c, q, now);
    case RejoinRoom(c, q, now) => RejoinRegisters(cfg, w.st, c, Checked(w.tokens, q), now);
    case SweepRoom(at, now) =>
      if at < |w.st.heap| && DueFor(w.st.heap[at], now).Some? {
        var (msg, code) := DueFor(w.st.heap[at], now).value;
        EvictRegisters(w.st, at, msg, code);
      }
    case ShutDownRoom(at) =>
      if at < |w.st.heap| {
        EvictRegisters(w.st, at, ServerShutdown, ShuttingDown);
      }
    case SweepTombstones(now) => AsRegistered(w.st, Next(cfg, w, a).st);
    case FlushSave(_) =>
    case FlushDelete(_) =>
    case SpoilFile(_, _) =>
    case _ => SessionRegisters(cfg, w, a);
  }

  /** The last one leaves a room that nobody can come back to. */
  ghost predicate Vacates(st: State, a: Action, ref: nat) {
    && ref < |st.heap| && st.heap[ref].host.epoch == "" && st.heap[ref].guest.epoch == ""
    && exists role :: Leaves(st, a, ref, role) && st.heap[ref].At(role.Other()).conn.None?
  }

  /** The step lets go of the room at ref, registered or not. */
  ghost predicate Dismisses(cfg: Config, st: State, a: Action, ref: nat) {
    ref < |st.heap| && (Farewell(cfg, st, a, ref).Some? || Vacates(st, a, ref))
  }

  /** The step lets go of some room that bears this id. */
  ghost predicate Unregisters(cfg: Config, st: State, a: Action, id: string) {
    exists ref: nat :: Dismisses(cfg, st, a, ref) && st.heap[ref].roomID == id
  }

  /** The one room that a step can be about. */
  ghost predicate Only(cfg: Config, st: State, a: Action, ref: nat) {
    forall at: nat :: Dismisses(cfg, st, a, at) ==> at == ref
  }

  ghost predicate RegisterFollows(cfg: Config, st: State, a: Action, st': State) {
    forall id :: id in st.rooms ==>
      if Unregisters(cfg, st, a, id) then id !in st'.rooms else id in st'.rooms && st'.rooms[id] == st.rooms[id]
  }

  lemma NothingDismissed(cfg: Config, st: State, a: Action, st': State)
    requires forall at: nat :: !Dismisses(cfg, st, a, at)
    requires forall id :: id in st.rooms ==> id in st'.rooms && st'.rooms[id] == st.rooms[id]
    ensures RegisterFollows(cfg, st, a, st')
  {
    hide Dismisses;
  }

  lemma OneDismissed(cfg: Config, st: State, a: Action, ref: nat, st': State)
    requires ref < |st.heap| && Only(cfg, st, a, ref)
    requires st'.rooms == if Dismisses(cfg, st, a, ref) then st.rooms - {st.heap[ref].roomID} else st.rooms
    ensures RegisterFollows(cfg, st, a, st')
  {
    hide Dismisses;
    forall id | id in st.rooms
      ensures if Unregisters(cfg, st, a, id) then id !in st'.rooms
              else id in st'.rooms && st'.rooms[id] == st.rooms[id]
    {
      if Dismisses(cfg, st, a, ref) && st.heap[ref].roomID == id {
        assert Unregisters(cfg, st, a, id);
      }
    }
  }

  lemma EvictedRooms(st: State, ref: nat, msg: Msg, code: CloseCode)
    requires ref < |st.heap|
    ensures Evict(st, ref, msg, code).rooms == st.rooms - {st.heap[ref].roomID}
  {
    hide ClearIn;
    assert st.heap[ref].roomID !in st.rooms ==> st.rooms - {st.heap[ref].roomID} == st.rooms;
  }

  lemma AttachesDismissNobody(cfg: Config, st: State, a: Action)
    requires !a.JoinRoom? && !a.CloseRoom? && !a.SweepRoom? && !a.ShutDownRoom? && !a.Detach?
    ensures forall at: nat :: !Dismisses(cfg, st, a, at)
  {
  }

  lemma JoinFollows(cfg: Config, actions: seq<Action>, a: Action)
    requires a.JoinRoom?
    ensures var w := Run(cfg, actions); RegisterFollows(cfg, w.st, a, JoinStep(cfg, w.st, a.c, a.join, a.now).0)
  {
    hide Run, Inv, Ask, TokensOk, DiskOk, JoinIn, Evict, Insert, RegisterFollows, Dismisses, ClosedFor;
    var w := Run(cfg, actions);
    EveryRunIsOk(cfg, actions);
    var st' := JoinStep(cfg, w.st, a.c, a.join, a.now).0;
    if a.join.id.Some? {
      AskingFinds(cfg, w.births, w.st, a.join.id.value, a.now);
    }
    if Knocks(w.st, a.c, a.join) {
      var ref := w.st.rooms[a.join.id.value];
      var room := w.st.heap[ref];
      JoinDismisses(cfg, w.st, a, ref);
      var tried := SetRoom(w.st, ref, room.(passwordAttempts := room.passwordAttempts + 1));
      EvictedRooms(Bury(cfg, tried, room.roomID, PasswordLockout, a.now), ref, RoomClosedMsg(PasswordLockout),
                   ClosedRoom);
      OneDismissed(cfg, w.st, a, ref, st');
    } else {
      NobodyKnocks(cfg, w.st, a);
      NothingDismissed(cfg, w.st, a, st');
    }
  }

  lemma JoinDismisses(cfg: Config, st: State, a: Action, ref: nat)
    requires a.JoinRoom? && Knocks(st, a.c, a.join) && st.rooms[a.join.id.value] == ref && ref < |st.heap|
    ensures Only(cfg, st, a, ref)
    ensures Dismisses(cfg, st, a, ref) <==>
              !OpensTo(st.heap[ref], a.join.password) && st.heap[ref].passwordAttempts + 1 >= cfg.maxPasswordAttempts
  {
  }

  lemma NobodyKnocks(cfg: Config, st: State, a: Action)
    requires a.JoinRoom? && !Knocks(st, a.c, a.join)
    ensures forall at: nat :: !Dismisses(cfg, st, a, at)
  {
  }

  lemma SweepFollows(cfg: Config, w: World, a: Action)
    requires Linked(w.st) && (a.SweepRoom? || a.ShutDownRoom?)
    ensures RegisterFollows(cfg, w.st, a, Next(cfg, w, a).st)
  {
    hide CreateStep, JoinStep, RejoinStep, SignalStep, ReportStep, CloseStep, DetachStep, Evict, Live, Marshal,
         Unmarshal, DueFor, RestoreAll, RegisterFollows, Dismisses;
    var st' := Next(cfg, w, a).st;
    if a.ref < |w.st.heap| {
      SweepDismisses(cfg, w.st, a);
      EvictedRooms(w.st, a.ref, ServerShutdown, ShuttingDown);
      if a.SweepRoom? && DueFor(w.st.heap[a.ref], a.now).Some? {
        var (msg, code) := DueFor(w.st.heap[a.ref], a.now).value;
        EvictedRooms(w.st, a.ref, msg, code);
      }
      OneDismissed(cfg, w.st, a, a.ref, st');
    } else {
      NobodySwept(cfg, w.st, a);
      NothingDismissed(cfg, w.st, a, st');
    }
  }

  lemma SweepDismisses(cfg: Config, st: State, a: Action)
    requires (a.SweepRoom? || a.ShutDownRoom?) && a.ref < |st.heap|
    ensures Only(cfg, st, a, a.ref)
    ensures Dismisses(cfg, st, a, a.ref) <==> a.ShutDownRoom? || DueFor(st.heap[a.ref], a.now).Some?
  {
    hide DueFor;
    if a.SweepRoom? {
      FarewellIsDue(cfg, st, a, a.ref);
    }
  }

  lemma NobodySwept(cfg: Config, st: State, a: Action)
    requires (a.SweepRoom? || a.ShutDownRoom?) && a.ref >= |st.heap|
    ensures forall at: nat :: !Dismisses(cfg, st, a, at)
  {
  }

  lemma CloseFollows(cfg: Config, w: World, a: Action)
    requires Linked(w.st) && a.CloseRoom?
    ensures RegisterFollows(cfg, w.st, a, CloseStep(cfg, w.st, a.c, a.now).0)
  {
    hide Evict, Insert, RegisterFollows, Dismisses;
    var st' := CloseStep(cfg, w.st, a.c, a.now).0;
    CloseDismisses(cfg, w.st, a);
    if a.c in w.st.sessions {
      var ref := w.st.sessions[a.c].ref;
      EvictedRooms(Bury(cfg, w.st, w.st.heap[ref].roomID, ClosedByPeer, a.now), ref, RoomClosedMsg(ClosedByPeer),
                   ClosedRoom);
      OneDismissed(cfg, w.st, a, ref, st');
    } else {
      NothingDismissed(cfg, w.st, a, st');
    }
  }

  lemma CloseDismisses(cfg: Config, st: State, a: Action)
    requires Linked(st) && a.CloseRoom?
    ensures a.c in st.sessions ==> Only(cfg, st, a, st.sessions[a.c].ref) && Dismisses(cfg, st, a, st.sessions[a.c].ref)
    ensures a.c !in st.sessions ==> forall at: nat :: !Dismisses(cfg, st, a, at)
  {
    if a.c in st.sessions {
      var at := st.sessions[a.c];
      assert Sits(st, a.c, at.ref, at.role) && (at.role == Host || at.role == Guest);
      assert Farewell(cfg, st, a, at.ref).Some?;
    }
  }

  lemma DetachFollows(cfg: Config, w: World, a: Action)
    requires Linked(w.st) && a.Detach?
    ensures RegisterFollows(cfg, w.st, a, DetachStep(cfg, w.st, a.c, a.now))
  {
    hide LeaveIn, RegisterFollows, Dismisses;
    var st' := DetachStep(cfg, w.st, a.c, a.now);
    DetachDismisses(cfg, w.st, a);
    if a.c in w.st.sessions {
      var at := w.st.sessions[a.c];
      var room := w.st.heap[at.ref];
      LeaveSame(cfg, room, at.role, a.c, a.now);
      assert room.roomID !in w.st.rooms ==> w.st.rooms - {room.roomID} == w.st.rooms;
      OneDismissed(cfg, w.st, a, at.ref, st');
    } else {
      NothingDismissed(cfg, w.st, a, st');
    }
  }

  lemma DetachDismisses(cfg: Config, st: State, a: Action)
    requires Linked(st) && a.Detach?
    ensures a.c !in st.sessions ==> forall at: nat :: !Dismisses(cfg, st, a, at)
    ensures a.c in st.sessions ==>
              var at := st.sessions[a.c];
              && Only(cfg, st, a, at.ref)
              && (Dismisses(cfg, st, a, at.ref) <==> LeaveIn(cfg, st.heap[at.ref], at.role, a.c, a.now).1)
  {
    if a.c in st.sessions {
      var at := st.sessions[a.c];
      assert Leaves(st, a, at.ref, at.role);
    }
  }

  /** In every run a registered id stays where it is, or is taken off the register, and that if and only if
      the step lets go of a room that bears it, be it the registered one or an earlier one of that id. */
  lemma RegisterExactly(cfg: Config, actions: seq<Action>, a: Action)
    requires !a.Restart?
    ensures RegisterFollows(cfg, Run(cfg, actions).st, a, Run(cfg, actions + [a]).st)
  {
    hide Run, CreateStep, JoinStep, RejoinStep, SignalStep, ReportStep, CloseStep, DetachStep, EvictFor, Live, Marshal,
         Unmarshal, RestoreAll, RegisterFollows, Dismisses, WorldOk;
    var w := Run(cfg, actions);
    EveryRunIsOk(cfg, actions);
    RunMore(cfg, actions, a);
    if a.JoinRoom? {
      JoinFollows(cfg, actions, a);
    } else if a.SweepRoom? || a.ShutDownRoom? {
      SweepFollows(cfg, w, a);
    } else if a.CloseRoom? {
      CloseFollows(cfg, w, a);
    } else if a.Detach? {
      DetachFollows(cfg, w, a);
    } else {
      AttachesDismissNobody(cfg, w.st, a);
      AttachesKeep(cfg, w, a);
      NothingDismissed(cfg, w.st, a, Next(cfg, w, a).st);
    }
  }

  lemma AttachesKeep(cfg: Config, w: World, a: Action)
    requires WorldOk(cfg, w)
    requires !a.JoinRoom? && !a.CloseRoom? && !a.SweepRoom? && !a.ShutDownRoom? && !a.Detach? && !a.Restart?
    ensures var st' := Next(cfg, w, a).st;
            forall id :: id in w.st.rooms ==> id in st'.rooms && st'.rooms[id] == w.st.rooms[id]
  {
    hide SignalIn, ReportIn, Live, Marshal, Unmarshal, RestoreAll, CreateStep, RejoinStep, JoinStep, CloseStep,
         DetachStep, EvictFor, Inv, TokensOk, DiskOk;
    match a
    case CreateRoom(c, q, now) => CreateKeepsRooms(cfg, w, c, q, now);
    case RejoinRoom(c, q, now) => RejoinKeepsRooms(cfg, w.st, c, Checked(w.tokens, q), now);
    case _ =>
  }

  lemma CreateKeepsRooms(cfg: Config, w: World, c: Conn, q: CreateRequest, now: int)
    requires WorldOk(cfg, w)
    ensures var st' := CreateStep(cfg, w.st, c, q, now).0;
            forall id :: id in w.st.rooms ==> id in st'.rooms && st'.rooms[id] == w.st.rooms[id]
  {
    hide Core, Entombed, TokensOk, DiskOk, Generate, NewRoom, HostIn;
    GenerateKeeps(cfg, w.st.tomb, w.st.rooms.Keys, FirstTries(q.candidates), now);
    var id := Generate(w.st.rooms.Keys, w.st.tomb, FirstTries(q.candidates), now, cfg.tombstoneTtl).1;
    if id.Some? {
      HostKeepsId(cfg, id.value, q, c, now);
    }
  }

  lemma HostKeepsId(cfg: Config, id: string, q: CreateRequest, c: Conn, now: int)
    ensures HostIn(NewRoom(cfg, id, now, now, OptionalPassword(q.password), q.ip, now), c, q.epoch).roomID == id
  {
  }

  lemma RejoinKeepsRooms(cfg: Config, st: State, c: Conn, q: RejoinRequest, now: int)
    requires Linked(st)
    ensures var st' := RejoinStep(cfg, st, c, q, now).0;
            forall id :: id in st.rooms ==> id in st'.rooms && st'.rooms[id] == st.rooms[id]
  {
    hide Ask, RejoinIn, NewRoom;
    if q.credential.Verified? && q.credential.token.roomID !in st.rooms {
      RejoinKeepsId(cfg, q.credential.token, q, c, now);
    }
  }

  // ---------------------------------------------------------------- wrong guesses

  ghost function WrongGuesses(cfg: Config, before: seq<Action>, actions: seq<Action>, ref: nat): nat {
    if actions == [] then 0
    else
      var n := |actions| - 1;
      WrongGuesses(cfg, before, actions[..n], ref)
      + if Guesses(Run(cfg, before + actions[..n]).st, actions[n], ref) then 1 else 0
  }

  /** Over any run without a restart, every wrong guess at a room's password has been counted once, and
      nothing else has. */
  lemma {:induction false} GuessesAreCounted(cfg: Config, before: seq<Action>, actions: seq<Action>, ref: nat)
    requires ref < |Run(cfg, before).st.heap| && NeverRestarted(actions)
    ensures ref < |Run(cfg, before + actions).st.heap|
    ensures Run(cfg, before + actions).st.heap[ref].passwordAttempts ==
              Run(cfg, before).st.heap[ref].passwordAttempts + WrongGuesses(cfg, before, actions, ref)
    decreases |actions|
  {
    hide Run, Next, Guesses;
    if actions == [] {
      assert before + actions == before;
    } else {
      var n := |actions| - 1;
      var fewer, a := actions[..n], actions[n];
      GuessesAreCounted(cfg, before, fewer, ref);
      EveryRunIsOk(cfg, before + fewer);
      RunMore(cfg, before + fewer, a);
      assert before + fewer + [a] == before + actions;
      NextTimes(cfg, Run(cfg, before + fewer), a, ref);
    }
  }

  /** Every registered room, and every room on disk, has seen fewer wrong guesses than are allowed. */
  ghost predicate Unlocked(cfg: Config, heap: seq<Room>, rooms: map<string, nat>) {
    forall id :: id in rooms ==> rooms[id] < |heap| && heap[rooms[id]].passwordAttempts < cfg.maxPasswordAttempts
  }

  ghost predicate UnlockedFiles(cfg: Config, disk: Disk) {
    forall id :: id in disk && Unmarshal(disk[id]).Some? ==>
      Unmarshal(disk[id]).value.passwordAttempts < cfg.maxPasswordAttempts
  }

  lemma StepUnlocked(cfg: Config, actions: seq<Action>, a: Action)
    requires var w := Run(cfg, actions); Unlocked(cfg, w.st.heap, w.st.rooms) && !a.Restart?
    ensures var st' := Run(cfg, actions + [a]).st; Unlocked(cfg, st'.heap, st'.rooms)
  {
    hide Run, Next, Registers, Guesses, WorldOk;
    var w := Run(cfg, actions);
    EveryRunIsOk(cfg, actions);
    RunMore(cfg, actions, a);
    NextRegisters(cfg, w, a);
    NextAdds(cfg, w, a);
    var st' := Next(cfg, w, a).st;
    forall id | id in st'.rooms
      ensures st'.rooms[id] < |st'.heap| && st'.heap[st'.rooms[id]].passwordAttempts < cfg.maxPasswordAttempts
    {
      RegisteredOrNew(w.st, st', id);
      if st'.rooms[id] < |w.st.heap| {
        NextTimes(cfg, w, a, st'.rooms[id]);
        if Guesses(w.st, a, st'.rooms[id]) {
          GuessedAt(cfg, actions, a, id);
        }
      }
    }
  }

  lemma RegisteredOrNew(st: State, st': State, id: string)
    requires Registers(st, st') && id in st'.rooms
    ensures || (id in st.rooms && st'.rooms[id] == st.rooms[id])
            || (st'.rooms[id] == |st.heap| && |st'.heap| == |st.heap| + 1)
  {
  }

  /** The last guess allowed takes the id off the register. */
  lemma GuessedAt(cfg: Config, actions: seq<Action>, a: Action, id: string)
    requires var st := Run(cfg, actions).st; id in st.rooms && Guesses(st, a, st.rooms[id])
    ensures var st := Run(cfg, actions).st;
            st.heap[st.rooms[id]].passwordAttempts + 1 >= cfg.maxPasswordAttempts ==>
              id !in Next(cfg, Run(cfg, actions), a).st.rooms
  {
    hide Run, WorldOk, JoinStep;
    var w := Run(cfg, actions);
    EveryRunIsOk(cfg, actions);
    assert Reachable(cfg, w);
    WrongPassword(cfg, w, a.c, a.join, a.now);
    WorldRegisteredAt(cfg, w, id);
    WorldRegisteredAt(cfg, w, a.join.id.value);
  }

  lemma WorldRegisteredAt(cfg: Config, w: World, id: string)
    requires WorldOk(cfg, w) && id in w.st.rooms
    ensures w.st.rooms[id] < |w.st.heap| && w.st.heap[w.st.rooms[id]].roomID == id
  {
    hide Inv, TokensOk, DiskOk;
    RegisteredAt(cfg, w.births, w.st, id);
  }

  lemma {:induction false} RestoredUnlocked(cfg: Config, disk: Disk, ids: seq<string>, now: int)
    requires UnlockedFiles(cfg, disk)
    ensures var (st, disk') := RestoreAll(cfg, EMPTY_STATE, disk, ids, now);
            Unlocked(cfg, st.heap, st.rooms) && UnlockedFiles(cfg, disk')
    decreases |ids|
  {
    hide Revived, Unmarshal;
    if ids != [] {
      var id, before := ids[|ids| - 1], ids[..|ids| - 1];
      RestoredUnlocked(cfg, disk, before, now);
      if id in disk && Revived(cfg, disk[id], now).Some? {
        RevivedSame(cfg, disk[id], now);
      }
    }
  }

  lemma RevivedSame(cfg: Config, s: RoomSnapshot, now: int)
    requires Revived(cfg, s, now).Some?
    ensures Unmarshal(s).Some?
    ensures Revived(cfg, s, now).value.passwordAttempts == Unmarshal(s).value.passwordAttempts
  {
  }

  lemma FilesUnlocked(cfg: Config, w: World, a: Action)
    requires Linked(w.st) && !a.Restart?
    requires Unlocked(cfg, w.st.heap, w.st.rooms) && UnlockedFiles(cfg, w.disk)
    ensures UnlockedFiles(cfg, Next(cfg, w, a).disk)
  {
    hide CreateStep, JoinStep, RejoinStep, SignalStep, ReportStep, CloseStep, DetachStep, EvictFor, Live, RestoreAll;
  }

  /** In every run, restarts included, a room that is registered has seen fewer wrong guesses than are
      allowed: whoever makes the last of them closes it. */
  lemma {:induction false} NoGuessLeftOver(cfg: Config, actions: seq<Action>)
    ensures var w := Run(cfg, actions);
            Unlocked(cfg, w.st.heap, w.st.rooms) && UnlockedFiles(cfg, w.disk)
    decreases |actions|
  {
    hide Next, Unlocked, UnlockedFiles, WorldOk;
    if actions == [] {
      assert Unlocked(cfg, [], map[]) && UnlockedFiles(cfg, map[]) by { NothingLocked(cfg); }
    } else {
      var before, a := actions[..|actions| - 1], actions[|actions| - 1];
      assert before + [a] == actions;
      NoGuessLeftOver(cfg, before);
      EveryRunIsOk(cfg, before);
      if a.Restart? {
        RestartedUnlocked(cfg, Run(cfg, before), a);
      } else {
        StepUnlocked(cfg, before, a);
        FilesUnlocked(cfg, Run(cfg, before), a);
      }
    }
  }

  lemma RestartedUnlocked(cfg: Config, w: World, a: Action)
    requires Linked(w.st) && a.Restart? && Unlocked(cfg, w.st.heap, w.st.rooms) && UnlockedFiles(cfg, w.disk)
    ensures var w' := Next(cfg, w, a); Unlocked(cfg, w'.st.heap, w'.st.rooms) && UnlockedFiles(cfg, w'.disk)
  {
    hide Unlocked, UnlockedFiles, RestoreAll;
    RestoredUnlocked(cfg, w.disk, a.ids, a.now);
  }

  lemma NothingLocked(cfg: Config)
    ensures Unlocked(cfg, [], map[]) && UnlockedFiles(cfg, map[])
  {
  }
}
