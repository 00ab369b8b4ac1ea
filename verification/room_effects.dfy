/** What each step does to each slot, in every run: who is in it and under which epoch, what its connection is
    told, how it is let go, and what is remembered of it. From this, what a connection hears in all the time
    that it is there. */
module RoomEffects {
  import opened Options
  import opened LruSpec
  import opened Tombstone
  import opened RoomModel
  import opened RoomRules
  import opened RoomInvariants
  import opened RoomSweep
  import opened RoomRuns
  import opened RoomTheorems
  import opened RoomEpochs
  import opened RoomAbsence
  import opened RoomAdmission

  // ---------------------------------------------------------------- who does what to a room

  /** The join is accepted, into the room at ref. */
  ghost predicate Joins(cfg: Config, w: World, a: Action, ref: nat)
    requires Linked(w.st)
  {
    && a.JoinRoom? && JoinStep(cfg, w.st, a.c, a.join, a.now).1.Joined?
    && a.join.id.Some? && a.join.id.value in w.st.rooms && w.st.rooms[a.join.id.value] == ref
  }

  /** The rejoin is accepted, as this role into the room at ref, which was registered. */
  ghost predicate Rejoins(cfg: Config, w: World, a: Action, ref: nat, role: Role)
    requires Linked(w.st)
  {
    a.RejoinRoom? && ComesBack(cfg, w, a.c, a.rejoin, a.now, ref, role)
  }

  ghost predicate Attaches(cfg: Config, w: World, a: Action, ref: nat, role: Role)
    requires Linked(w.st)
  {
    (Joins(cfg, w, a, ref) && role.Guest?) || Rejoins(cfg, w, a, ref, role)
  }

  function EpochIn(a: Action): string {
    match a
    case JoinRoom(_, q, _) => q.epoch
    case RejoinRoom(_, q, _) => q.epoch
    case _ => ""
  }

  /** A guess at the password of the room at ref, and a wrong one. */
  ghost predicate Guesses(st: State, a: Action, ref: nat) {
    && a.JoinRoom? && Knocks(st, a.c, a.join) && st.rooms[a.join.id.value] == ref
    && ref < |st.heap| && !OpensTo(st.heap[ref], a.join.password)
  }

  /** The session of connection c is attached to the slot. */
  predicate Sits(st: State, c: Conn, ref: nat, role: Role) {
    c in st.sessions && st.sessions[c] == Attached(ref, role)
  }

  predicate Leaves(st: State, a: Action, ref: nat, role: Role) {
    a.Detach? && Sits(st, a.c, ref, role)
  }

  predicate Reports(st: State, a: Action, ref: nat, role: Role) {
    a.PeerConnected? && Sits(st, a.c, ref, role)
  }

  predicate Reached(t: Option<int>, now: int) {
    t.Some? && t.value <= now
  }

  /** Whether the step lets go of everybody in the room at ref, what they are told, and how they are closed. */
  ghost function Farewell(cfg: Config, st: State, a: Action, ref: nat): Option<(Msg, CloseCode)>
    requires ref < |st.heap|
  {
    var room := st.heap[ref];
    match a
    case JoinRoom(_, _, _) =>
      if Guesses(st, a, ref) && room.passwordAttempts + 1 >= cfg.maxPasswordAttempts
      then Some((RoomClosedMsg(PasswordLockout), ClosedRoom)) else None
    case CloseRoom(c, _) =>
      if Sits(st, c, ref, Host) || Sits(st, c, ref, Guest)
      then Some((RoomClosedMsg(ClosedByPeer), ClosedRoom)) else None
    case SweepRoom(at, now) =>
      if at != ref then None
      else if Reached(room.releaseAt, now) then Some((RoomIdleClose, PeersConnected))
      else if room.expiresAt <= now || Reached(room.peerDeadlineAt, now) then Some((RoomExpiredMsg, ExpiredRoom))
      else None
    case ShutDownRoom(at) => if at == ref then Some((ServerShutdown, ShuttingDown)) else None
    case _ => None
  }

  // ---------------------------------------------------------------- what a step does to a room

  ghost function Touched(cfg: Config, w: World, a: Action, ref: nat): Room
    requires Linked(w.st) && ref < |w.st.heap|
  {
    var st, room := w.st, w.st.heap[ref];
    match a
    case JoinRoom(c, q, now) =>
      if Joins(cfg, w, a, ref) then JoinIn(room, c, q.epoch)
      else if Guesses(st, a, ref) then
        var tried := room.(passwordAttempts := room.passwordAttempts + 1);
        if Farewell(cfg, st, a, ref).Some? then ClearIn(tried, Farewell(cfg, st, a, ref).value.0) else tried
      else room
    case RejoinRoom(c, q, now) =>
      if Rejoins(cfg, w, a, ref, Host) then RejoinIn(cfg, room, Host, c, q.epoch, false, now)
      else if Rejoins(cfg, w, a, ref, Guest) then RejoinIn(cfg, room, Guest, c, q.epoch, false, now)
      else room
    case SendSignal(c, seqNo, wellFormed, data, now) =>
      if c in st.sessions && st.sessions[c].ref == ref && seqNo > 0 && wellFormed
      then SignalIn(cfg, room, st.sessions[c].role, seqNo, data, now).0 else room
    case PeerConnected(c, now) =>
      if c in st.sessions && st.sessions[c].ref == ref then ReportIn(cfg, room, st.sessions[c].role, now) else room
    case Detach(c, now) =>
      if c in st.sessions && st.sessions[c].ref == ref then LeaveIn(cfg, room, st.sessions[c].role, c, now).0 else room
    case _ =>
      if Farewell(cfg, st, a, ref).Some? then ClearIn(room, Farewell(cfg, st, a, ref).value.0) else room
  }

  lemma CreateTouches(cfg: Config, st: State, c: Conn, q: CreateRequest, now: int)
    ensures st.heap <= CreateStep(cfg, st, c, q, now).0.heap
  {
    hide Generate, NewRoom, HostIn;
  }

  lemma JoinTouches(cfg: Config, w: World, a: Action, ref: nat)
    requires WorldOk(cfg, w) && a.JoinRoom? && ref < |w.st.heap|
    ensures var heap := JoinStep(cfg, w.st, a.c, a.join, a.now).0.heap;
            |heap| == |w.st.heap| && heap[ref] == Touched(cfg, w, a, ref)
  {
    hide Inv, Ask, TokensOk, DiskOk, JoinIn, ClearIn, Insert, ClosedFor;
    if a.join.id.Some? {
      AskingFinds(cfg, w.births, w.st, a.join.id.value, a.now);
    }
  }

  lemma RejoinTouches(cfg: Config, w: World, a: Action, ref: nat)
    requires Linked(w.st) && a.RejoinRoom? && ref < |w.st.heap|
    ensures var heap := RejoinStep(cfg, w.st, a.c, Checked(w.tokens, a.rejoin), a.now).0.heap;
            |heap| >= |w.st.heap| && heap[ref] == Touched(cfg, w, a, ref)
  {
    hide Ask, RejoinIn, NewRoom;
    CheckedSame(w.tokens, a.rejoin);
  }

  lemma EvictTouches(st: State, at: nat, msg: Msg, code: CloseCode, ref: nat)
    requires at < |st.heap| && ref < |st.heap|
    ensures var heap := Evict(st, at, msg, code).heap;
            |heap| == |st.heap| && heap[ref] == if at == ref then ClearIn(st.heap[ref], msg) else st.heap[ref]
  {
    hide ClearIn;
  }

  lemma FarewellIsDue(cfg: Config, st: State, a: Action, ref: nat)
    requires ref < |st.heap| && a.SweepRoom? && a.ref == ref
    ensures Farewell(cfg, st, a, ref) == DueFor(st.heap[ref], a.now)
  {
  }

  lemma SweepTouches(cfg: Config, w: World, a: Action, ref: nat)
    requires Linked(w.st) && (a.SweepRoom? || a.ShutDownRoom?) && ref < |w.st.heap|
    ensures var heap := Next(cfg, w, a).st.heap;
            |heap| == |w.st.heap| && heap[ref] == Touched(cfg, w, a, ref)
  {
    hide ClearIn, CreateStep, JoinStep, RejoinStep, SignalStep, ReportStep, CloseStep, DetachStep, Live, Marshal,
         Unmarshal, RestoreAll, Evict, DueFor, Farewell;
    QuietTouched(cfg, w, a, ref);
    var at := a.ref;
    if at < |w.st.heap| {
      EvictTouches(w.st, at, ServerShutdown, ShuttingDown, ref);
      if a.SweepRoom? && DueFor(w.st.heap[at], a.now).Some? {
        var (msg, code) := DueFor(w.st.heap[at], a.now).value;
        EvictTouches(w.st, at, msg, code, ref);
      }
    }
    if a.SweepRoom? && at == ref {
      FarewellIsDue(cfg, w.st, a, ref);
    }
    NotHere(cfg, w.st, a, ref);
  }

  lemma NotHere(cfg: Config, st: State, a: Action, ref: nat)
    requires (a.SweepRoom? || a.ShutDownRoom?) && ref < |st.heap|
    ensures a.ref != ref ==> Farewell(cfg, st, a, ref).None?
    ensures a.ref == ref && a.ShutDownRoom? ==> Farewell(cfg, st, a, ref) == Some((ServerShutdown, ShuttingDown))
  {
  }

  /** No attached session speaks, reports or detaches with it, and none attaches. */
  predicate Aside(a: Action) {
    !a.JoinRoom? && !a.RejoinRoom? && !a.SendSignal? && !a.PeerConnected? && !a.Detach?
  }

  lemma QuietTouched(cfg: Config, w: World, a: Action, ref: nat)
    requires Linked(w.st) && ref < |w.st.heap| && Aside(a)
    ensures Touched(cfg, w, a, ref) ==
              match Farewell(cfg, w.st, a, ref)
              case None => w.st.heap[ref]
              case Some((msg, _)) => ClearIn(w.st.heap[ref], msg)
  {
    hide ClearIn, Farewell;
  }

  lemma CloseTouches(cfg: Config, w: World, a: Action, ref: nat)
    requires Linked(w.st) && (a.CloseRoom? || a.Detach?) && ref < |w.st.heap|
    ensures var heap := Next(cfg, w, a).st.heap;
            |heap| == |w.st.heap| && heap[ref] == Touched(cfg, w, a, ref)
  {
    hide ClearIn, LeaveIn, Insert, CreateStep, JoinStep, RejoinStep, SignalStep, ReportStep, EvictFor, Live, Marshal,
         Unmarshal, RestoreAll, Guesses;
    if a.c in w.st.sessions {
      assert w.st.sessions[a.c].role == Host || w.st.sessions[a.c].role == Guest;
    }
  }

  lemma SessionTouches(cfg: Config, w: World, a: Action, ref: nat)
    requires Linked(w.st) && (a.SendSignal? || a.PeerConnected?) && ref < |w.st.heap|
    ensures var heap := Next(cfg, w, a).st.heap;
            |heap| == |w.st.heap| && heap[ref] == Touched(cfg, w, a, ref)
  {
    hide SignalIn, ReportIn;
  }

  lemma NextTouches(cfg: Config, w: World, a: Action, ref: nat)
    requires WorldOk(cfg, w) && !a.Restart? && ref < |w.st.heap|
    ensures var heap := Next(cfg, w, a).st.heap;
            |heap| >= |w.st.heap| && heap[ref] == Touched(cfg, w, a, ref)
  {
    hide CreateStep, JoinStep, RejoinStep, SignalStep, ReportStep, CloseStep, DetachStep, EvictFor, Live, Marshal,
         Unmarshal, Inv, TokensOk, DiskOk, Touched;
    match a
    case CreateRoom(c, q, now) => CreateTouches(cfg, w.st, c, q, now); Untouched(cfg, w, a, ref);
    case JoinRoom(c, q, now) => JoinTouches(cfg, w, a, ref);
    case RejoinRoom(c, q, now) => RejoinTouches(cfg, w, a, ref);
    case SendSignal(_, _, _, _, _) => SessionTouches(cfg, w, a, ref);
    case PeerConnected(_, _) => SessionTouches(cfg, w, a, ref);
    case CloseRoom(_, _) => CloseTouches(cfg, w, a, ref);
    case Detach(_, _) => CloseTouches(cfg, w, a, ref);
    case SweepRoom(_, _) => SweepTouches(cfg, w, a, ref);
    case ShutDownRoom(_) => SweepTouches(cfg, w, a, ref);
    case _ => Untouched(cfg, w, a, ref);
  }

  lemma Untouched(cfg: Config, w: World, a: Action, ref: nat)
    requires Linked(w.st) && ref < |w.st.heap|
    requires a.CreateRoom? || a.SweepTombstones? || a.FlushSave? || a.FlushDelete? || a.SpoilFile?
    ensures Touched(cfg, w, a, ref) == w.st.heap[ref]
  {
  }

  // ---------------------------------------------------------------- what a step does to a slot

  /** What a connection in the slot is told. */
  ghost function NoticesTo(cfg: Config, w: World, a: Action, ref: nat, role: Role): seq<Msg>
    requires Linked(w.st) && ref < |w.st.heap|
  {
    var other := role.Other();
    if Joins(cfg, w, a, ref) && role.Host? then [GuestJoined(EpochIn(a))]
    else if Rejoins(cfg, w, a, ref, other) then
      [if EpochIn(a) != w.st.heap[ref].At(other).epoch then PeerReset(other, EpochIn(a))
       else PeerRejoined(other, EpochIn(a))]
    else if Leaves(w.st, a, ref, other) then [PeerDisconnected(other)]
    else if Farewell(cfg, w.st, a, ref).Some? then [Farewell(cfg, w.st, a, ref).value.0]
    else Replayed(SentIn(w.st, a, ref, role))
  }

  /** Both sides start anew: this one comes back under another epoch, or the other one does while it is there. */
  ghost predicate Renewed(cfg: Config, w: World, a: Action, ref: nat, role: Role)
    requires Linked(w.st) && ref < |w.st.heap|
  {
    var room := w.st.heap[ref];
    || (Rejoins(cfg, w, a, ref, role) && EpochIn(a) != room.At(role).epoch)
    || (&& Rejoins(cfg, w, a, ref, role.Other()) && EpochIn(a) != room.At(role.Other()).epoch
        && room.At(role).conn.Some?)
  }

  /** Who is in the slot, and what that connection has been told. */
  ghost predicate Occupancy(cfg: Config, w: World, a: Action, ref: nat, role: Role, slot': Slot)
    requires Linked(w.st) && ref < |w.st.heap|
  {
    var slot := w.st.heap[ref].At(role);
    if Attaches(cfg, w, a, ref, role) then
      && slot'.conn == Some(a.c) && slot'.epoch == EpochIn(a)
      && slot'.log == (if a.JoinRoom? || EpochIn(a) != slot.epoch then [] else Replayed(slot.buffer))
    else
      && slot'.epoch == slot.epoch
      && slot'.conn == (if Farewell(cfg, w.st, a, ref).Some? then None
                        else if Leaves(w.st, a, ref, role) && slot.conn == Some(a.c) then None
                        else slot.conn)
      && slot'.log == slot.log + (if slot.conn.Some? then NoticesTo(cfg, w, a, ref, role) else [])
  }

  /** The number counted for the slot, whether it has reported, and what is buffered for it. */
  ghost predicate Memory(cfg: Config, w: World, a: Action, ref: nat, role: Role, slot': Slot)
    requires Linked(w.st) && ref < |w.st.heap|
  {
    var slot, mine, sent := w.st.heap[ref].At(role), SentIn(w.st, a, ref, role.Other()), SentIn(w.st, a, ref, role);
    if Renewed(cfg, w, a, ref, role) then slot'.lastSeq == 0 && !slot'.reportedConnected && slot'.buffer == []
    else
      && slot'.lastSeq == (if mine != [] then mine[0].seqNo else slot.lastSeq)
      && (slot'.reportedConnected <==> slot.reportedConnected || Reports(w.st, a, ref, role))
      && slot'.buffer == (if slot.conn.Some? then slot.buffer
                          else if ToldIn(cfg, w.st, a, ref, role) then []
                          else slot.buffer + sent)
  }

  lemma JoinSlots(cfg: Config, w: World, a: Action, ref: nat, role: Role)
    requires Linked(w.st) && a.JoinRoom? && ref < |w.st.heap|
    ensures Occupancy(cfg, w, a, ref, role, Touched(cfg, w, a, ref).At(role))
    ensures Memory(cfg, w, a, ref, role, Touched(cfg, w, a, ref).At(role))
  {
    hide JoinStep, Guesses, SentIn, ToldIn;
    NotSpeaking(cfg, w, a, ref);
    if Guesses(w.st, a, ref) {
      GuessesFail(cfg, w, a, ref);
    }
    NothingReplayed();
  }

  lemma NothingReplayed()
    ensures Replayed([]) == []
  {
  }

  lemma GuessesFail(cfg: Config, w: World, a: Action, ref: nat)
    requires Linked(w.st) && Guesses(w.st, a, ref)
    ensures !Joins(cfg, w, a, ref)
  {
    hide Ask, ClearIn;
  }

  lemma NotSpeaking(cfg: Config, w: World, a: Action, ref: nat)
    requires Linked(w.st) && !a.SendSignal?
    ensures forall role :: SentIn(w.st, a, ref, role) == [] && !ToldIn(cfg, w.st, a, ref, role)
  {
    hide SignalStep;
  }

  /** What a rejoin does to the two slots. */
  lemma RejoinInSlots(cfg: Config, room: Room, role: Role, c: Conn, epoch: string, now: int)
    ensures var room' := RejoinIn(cfg, room, role, c, epoch, false, now);
            var me, you, changed := room.At(role), room.At(role.Other()), room.At(role).epoch != epoch;
            var me', you' := room'.At(role), room'.At(role.Other());
            && me'.conn == Some(c) && me'.epoch == epoch && me'.log == (if changed then [] else Replayed(me.buffer))
            && me'.lastSeq == (if changed then 0 else me.lastSeq)
            && me'.reportedConnected == (!changed && me.reportedConnected)
            && me'.buffer == (if changed then [] else me.buffer)
            && you'.conn == you.conn && you'.epoch == you.epoch
            && (you.conn.None? ==> you' == you)
            && (you.conn.Some? ==>
                  && you'.log == you.log + [if changed then PeerReset(role, epoch) else PeerRejoined(role, epoch)]
                  && you'.lastSeq == (if changed then 0 else you.lastSeq)
                  && you'.reportedConnected == (!changed && you.reportedConnected)
                  && you'.buffer == (if changed then [] else you.buffer))
  {
  }

  lemma OneRole(cfg: Config, w: World, a: Action, ref: nat, role: Role)
    requires Linked(w.st)
    ensures !(Rejoins(cfg, w, a, ref, role) && Rejoins(cfg, w, a, ref, role.Other()))
  {
    hide RejoinStep, Checked;
  }

  lemma RejoinSlots(cfg: Config, w: World, a: Action, ref: nat, role: Role)
    requires Linked(w.st) && a.RejoinRoom? && ref < |w.st.heap|
    ensures Occupancy(cfg, w, a, ref, role, Touched(cfg, w, a, ref).At(role))
    ensures Memory(cfg, w, a, ref, role, Touched(cfg, w, a, ref).At(role))
  {
    hide RejoinStep, Checked, RejoinIn, Room.At, SentIn, ToldIn, ComesBack;
    NothingReplayed();
    NotSpeaking(cfg, w, a, ref);
    OneRole(cfg, w, a, ref, role);
    var room := w.st.heap[ref];
    RejoinInSlots(cfg, room, role, a.c, a.rejoin.epoch, a.now);
    RejoinInSlots(cfg, room, role.Other(), a.c, a.rejoin.epoch, a.now);
  }

  /** What a signal does to the two slots. */
  lemma SignalInSlots(cfg: Config, room: Room, role: Role, seqNo: int, data: string, now: int)
    ensures var (room', told) := SignalIn(cfg, room, role, seqNo, data, now);
            var me, you, me', you' := room.At(role), room.At(role.Other()), room'.At(role), room'.At(role.Other());
            var s := Signal(role, me.epoch, seqNo, data, now);
            if seqNo <= me.lastSeq then me' == me && you' == you && !told
            else
              && me' == me.(lastSeq := seqNo)
              && (you.conn.Some? ==> you' == you.(log := you.log + [Heard(s)]) && !told)
              && (you.conn.None? ==>
                    && you'.conn == you.conn && you'.epoch == you.epoch && you'.log == you.log
                    && you'.lastSeq == you.lastSeq && you'.reportedConnected == you.reportedConnected
                    && you'.buffer == if told then [] else you.buffer + [s])
  {
  }

  lemma Undisturbed(cfg: Config, w: World, a: Action, ref: nat, role: Role, slot': Slot)
    requires Linked(w.st) && ref < |w.st.heap|
    requires !Joins(cfg, w, a, ref) && !Rejoins(cfg, w, a, ref, role) && !Rejoins(cfg, w, a, ref, role.Other())
    requires !Leaves(w.st, a, ref, role) && !Leaves(w.st, a, ref, role.Other()) && !Reports(w.st, a, ref, role)
    requires SentIn(w.st, a, ref, role) == SentIn(w.st, a, ref, role.Other()) == [] && !ToldIn(cfg, w.st, a, ref, role)
    requires var slot, farewell := w.st.heap[ref].At(role), Farewell(cfg, w.st, a, ref);
             slot' == if farewell.Some? && slot.conn.Some?
                      then slot.(conn := None, log := slot.log + [farewell.value.0]) else slot
    ensures Occupancy(cfg, w, a, ref, role, slot') && Memory(cfg, w, a, ref, role, slot')
  {
    hide Farewell, Room.At, SentIn, ToldIn, Joins, Rejoins, Leaves, Reports, EpochIn, Linked;
    NothingReplayed();
    var slot := w.st.heap[ref].At(role);
    assert slot.log + [] == slot.log && slot.buffer + [] == slot.buffer;
  }

  /** A signal is about this room, and may be relayed. */
  predicate Signals(st: State, a: Action, ref: nat) {
    a.SendSignal? && a.c in st.sessions && st.sessions[a.c].ref == ref && a.wellFormed && a.seqNo > 0
  }

  lemma SenderSlot(cfg: Config, w: World, a: Action, ref: nat)
    requires Linked(w.st) && ref < |w.st.heap| && Signals(w.st, a, ref)
    ensures var role := w.st.sessions[a.c].role;
            var slot' := Touched(cfg, w, a, ref).At(role);
            Occupancy(cfg, w, a, ref, role, slot') && Memory(cfg, w, a, ref, role, slot')
  {
    hide SignalIn, Room.At, Joins, Rejoins, Reports, ToldIn;
    NothingReplayed();
    var role := w.st.sessions[a.c].role;
    NobodyAttaches(cfg, w, a, ref, role);
    var slot := w.st.heap[ref].At(role);
    assert slot.log + [] == slot.log && slot.buffer + [] == slot.buffer;
    NotToldItself(cfg, w, a, ref);
    SignalInSlots(cfg, w.st.heap[ref], role, a.seqNo, a.data, a.now);
  }

  lemma NotToldItself(cfg: Config, w: World, a: Action, ref: nat)
    requires Linked(w.st) && Signals(w.st, a, ref)
    ensures !ToldIn(cfg, w.st, a, ref, w.st.sessions[a.c].role)
  {
    hide SignalStep;
  }

  lemma ListenerSlot(cfg: Config, w: World, a: Action, ref: nat)
    requires Linked(w.st) && ref < |w.st.heap| && Signals(w.st, a, ref)
    ensures var role := w.st.sessions[a.c].role.Other();
            var slot' := Touched(cfg, w, a, ref).At(role);
            Occupancy(cfg, w, a, ref, role, slot') && Memory(cfg, w, a, ref, role, slot')
  {
    hide SignalIn, Room.At, Joins, Rejoins, Reports;
    NothingReplayed();
    var role := w.st.sessions[a.c].role.Other();
    NobodyAttaches(cfg, w, a, ref, role);
    var slot, sent := w.st.heap[ref].At(role), SentIn(w.st, a, ref, role);
    assert sent != [] ==> Replayed(sent) == [Heard(sent[0])];
    assert slot.log + [] == slot.log && slot.buffer + [] == slot.buffer;
    SignalInSlots(cfg, w.st.heap[ref], role.Other(), a.seqNo, a.data, a.now);
  }

  lemma NoSignals(cfg: Config, w: World, a: Action, ref: nat, role: Role)
    requires Linked(w.st) && ref < |w.st.heap| && a.SendSignal? && !Signals(w.st, a, ref)
    ensures SentIn(w.st, a, ref, role) == [] && !ToldIn(cfg, w.st, a, ref, role)
    ensures Touched(cfg, w, a, ref) == w.st.heap[ref]
  {
    hide SignalIn;
  }

  lemma SignalSlots(cfg: Config, w: World, a: Action, ref: nat, role: Role)
    requires Linked(w.st) && a.SendSignal? && ref < |w.st.heap|
    ensures Occupancy(cfg, w, a, ref, role, Touched(cfg, w, a, ref).At(role))
    ensures Memory(cfg, w, a, ref, role, Touched(cfg, w, a, ref).At(role))
  {
    hide Touched, Occupancy, Memory, SentIn, ToldIn, Joins, Rejoins, Reports, Room.At;
    if Signals(w.st, a, ref) {
      SenderSlot(cfg, w, a, ref);
      ListenerSlot(cfg, w, a, ref);
      assert role == w.st.sessions[a.c].role || role == w.st.sessions[a.c].role.Other();
    } else {
      NobodyAttaches(cfg, w, a, ref, role);
      NoSignals(cfg, w, a, ref, role);
      NoSignals(cfg, w, a, ref, role.Other());
      Undisturbed(cfg, w, a, ref, role, w.st.heap[ref].At(role));
    }
  }

  lemma NobodyAttaches(cfg: Config, w: World, a: Action, ref: nat, role: Role)
    requires Linked(w.st) && a.SendSignal?
    ensures !Joins(cfg, w, a, ref) && !Reports(w.st, a, ref, role)
    ensures !Rejoins(cfg, w, a, ref, role) && !Rejoins(cfg, w, a, ref, role.Other())
  {
    hide JoinStep, ComesBack;
  }

  lemma LeaveInSlots(cfg: Config, room: Room, role: Role, c: Conn, now: int)
    ensures var room' := LeaveIn(cfg, room, role, c, now).0;
            var me, you := room.At(role), room.At(role.Other());
            && room'.At(role) == (if me.conn == Some(c) then me.(conn := None) else me)
            && room'.At(role.Other()) ==
                 if you.conn.Some? then you.(log := you.log + [PeerDisconnected(role)]) else you
  {
  }

  lemma DetachSlots(cfg: Config, w: World, a: Action, ref: nat, role: Role)
    requires Linked(w.st) && a.Detach? && ref < |w.st.heap|
    ensures Occupancy(cfg, w, a, ref, role, Touched(cfg, w, a, ref).At(role))
    ensures Memory(cfg, w, a, ref, role, Touched(cfg, w, a, ref).At(role))
  {
    hide LeaveIn, Room.At, SentIn, ToldIn, JoinStep, ComesBack;
    NothingReplayed();
    NotSpeaking(cfg, w, a, ref);
    if a.c in w.st.sessions {
      LeaveInSlots(cfg, w.st.heap[ref], w.st.sessions[a.c].role, a.c, a.now);
    }
  }

  lemma ReportInSlots(cfg: Config, room: Room, role: Role, now: int)
    ensures var room' := ReportIn(cfg, room, role, now);
            && room'.At(role) == room.At(role).(reportedConnected := true)
            && room'.At(role.Other()) == room.At(role.Other())
  {
  }

  lemma ReportSlots(cfg: Config, w: World, a: Action, ref: nat, role: Role)
    requires Linked(w.st) && a.PeerConnected? && ref < |w.st.heap|
    ensures Occupancy(cfg, w, a, ref, role, Touched(cfg, w, a, ref).At(role))
    ensures Memory(cfg, w, a, ref, role, Touched(cfg, w, a, ref).At(role))
  {
    hide ReportIn, Room.At, SentIn, ToldIn, JoinStep, ComesBack;
    NothingReplayed();
    NotSpeaking(cfg, w, a, ref);
    if a.c in w.st.sessions {
      ReportInSlots(cfg, w.st.heap[ref], w.st.sessions[a.c].role, a.now);
    }
  }

  lemma ClearInSlots(room: Room, msg: Msg, role: Role)
    ensures var slot := room.At(role);
            ClearIn(room, msg).At(role)
              == if slot.conn.Some? then slot.(conn := None, log := slot.log + [msg]) else slot
  {
  }

  lemma NobodyActs(cfg: Config, w: World, a: Action, ref: nat)
    requires Linked(w.st) && Aside(a)
    ensures !Joins(cfg, w, a, ref)
    ensures forall role :: !Rejoins(cfg, w, a, ref, role) && !Leaves(w.st, a, ref, role) && !Reports(w.st, a, ref, role)
  {
    hide JoinStep, ComesBack;
  }

  lemma QuietSlots(cfg: Config, w: World, a: Action, ref: nat, role: Role)
    requires Linked(w.st) && ref < |w.st.heap| && Aside(a)
    ensures Occupancy(cfg, w, a, ref, role, Touched(cfg, w, a, ref).At(role))
    ensures Memory(cfg, w, a, ref, role, Touched(cfg, w, a, ref).At(role))
  {
    hide Farewell, ClearIn, Room.At, SentIn, ToldIn, Joins, Rejoins, Leaves, Reports, Touched, Linked, Occupancy,
         Memory;
    NotSpeaking(cfg, w, a, ref);
    NobodyActs(cfg, w, a, ref);
    QuietTouched(cfg, w, a, ref);
    var farewell := Farewell(cfg, w.st, a, ref);
    if farewell.Some? {
      ClearInSlots(w.st.heap[ref], farewell.value.0, role);
    }
    Undisturbed(cfg, w, a, ref, role, Touched(cfg, w, a, ref).At(role));
  }

  /** The whole effect of any step but a restart on any slot, registered or not. */
  lemma NextSlots(cfg: Config, w: World, a: Action, ref: nat, role: Role)
    requires WorldOk(cfg, w) && !a.Restart? && ref < |w.st.heap|
    ensures var heap := Next(cfg, w, a).st.heap;
            && ref < |heap|
            && Occupancy(cfg, w, a, ref, role, heap[ref].At(role))
            && Memory(cfg, w, a, ref, role, heap[ref].At(role))
  {
    hide Occupancy, Memory, Touched, Next, Inv, TokensOk, DiskOk;
    NextTouches(cfg, w, a, ref);
    if a.JoinRoom? {
      JoinSlots(cfg, w, a, ref, role);
    } else if a.RejoinRoom? {
      RejoinSlots(cfg, w, a, ref, role);
    } else if a.SendSignal? {
      SignalSlots(cfg, w, a, ref, role);
    } else if a.PeerConnected? {
      ReportSlots(cfg, w, a, ref, role);
    } else if a.Detach? {
      DetachSlots(cfg, w, a, ref, role);
    } else {
      QuietSlots(cfg, w, a, ref, role);
    }
  }

  // ---------------------------------------------------------------- what a connection hears while it is there

  ghost predicate Holder(st: State, ref: nat, role: Role, c: Conn) {
    ref < |st.heap| && st.heap[ref].At(role).conn == Some(c)
  }

  /** From the end of before until after actions c is in the slot, and the process is not restarted. */
  ghost predicate Stays(cfg: Config, before: seq<Action>, actions: seq<Action>, ref: nat, role: Role, c: Conn) {
    && (forall k :: 0 <= k <= |actions| ==> Holder(Run(cfg, before + actions[..k]).st, ref, role, c))
    && (forall k :: 0 <= k < |actions| ==> !actions[k].Restart?)
  }

  /** All that the slot's connection is told by the actions after before. */
  ghost function NoticesOf(cfg: Config, before: seq<Action>, actions: seq<Action>, ref: nat, role: Role): seq<Msg> {
    if actions == [] then []
    else
      var n := |actions| - 1;
      var w := Run(cfg, before + actions[..n]);
      NoticesOf(cfg, before, actions[..n], ref, role)
      + if ref < |w.st.heap| then NoticesTo(cfg, w, actions[n], ref, role) else []
  }

  function SignalsIn(log: seq<Msg>): seq<Signal> {
    if log == [] then []
    else SignalsIn(log[..|log| - 1]) + if log[|log| - 1].Heard? then [log[|log| - 1].signal] else []
  }

  lemma {:induction false} SignalsAppend(one: seq<Msg>, two: seq<Msg>)
    ensures SignalsIn(one + two) == SignalsIn(one) + SignalsIn(two)
    decreases |two|
  {
    if two == [] {
      assert one + two == one;
    } else {
      var before, last := two[..|two| - 1], two[|two| - 1];
      assert (one + two)[..|one + two| - 1] == one + before;
      SignalsAppend(one, before);
      var tail := if last.Heard? then [last.signal] else [];
      assert SignalsIn(one) + SignalsIn(before) + tail == SignalsIn(one) + (SignalsIn(before) + tail);
    }
  }

  lemma OneMessage(msg: Msg)
    ensures SignalsIn([msg]) == if msg.Heard? then [msg.signal] else []
  {
    assert [msg][..0] == [] && SignalsIn([]) == [];
  }

  /** Of all that is told, the signals are those sent. */
  lemma NoticesCarry(cfg: Config, w: World, a: Action, ref: nat, role: Role)
    requires Linked(w.st) && ref < |w.st.heap|
    ensures SignalsIn(NoticesTo(cfg, w, a, ref, role)) == SentIn(w.st, a, ref, role)
  {
    hide ComesBack, JoinStep, Room.At, SignalsIn;
    NothingReplayed();
    NoSignalsIn();
    var sent, notices := SentIn(w.st, a, ref, role), NoticesTo(cfg, w, a, ref, role);
    assert sent != [] ==> sent == [sent[0]] && Replayed(sent) == [Heard(sent[0])];
    if notices != [] {
      assert notices == [notices[0]];
      OneMessage(notices[0]);
    }
    FarewellsAreNoSignals(cfg, w.st, a, ref);
  }

  lemma NoSignalsIn()
    ensures SignalsIn([]) == []
  {
  }

  lemma FarewellsAreNoSignals(cfg: Config, st: State, a: Action, ref: nat)
    requires ref < |st.heap|
    ensures Farewell(cfg, st, a, ref).Some? ==> !Farewell(cfg, st, a, ref).value.0.Heard? && !a.SendSignal?
  {
  }

  lemma StaysLess(cfg: Config, before: seq<Action>, actions: seq<Action>, a: Action, ref: nat, role: Role, c: Conn)
    requires Stays(cfg, before, actions + [a], ref, role, c)
    ensures Stays(cfg, before, actions, ref, role, c) && !a.Restart?
    ensures Holder(Run(cfg, before + actions).st, ref, role, c)
    ensures Holder(Run(cfg, before + actions + [a]).st, ref, role, c)
  {
    hide Run, Holder;
    var more := actions + [a];
    assert forall k :: 0 <= k <= |actions| ==> more[..k] == actions[..k];
    assert forall k :: 0 <= k < |actions| ==> more[k] == actions[k];
    assert more[..|actions|] == actions && more[..|more|] == more && more[|actions|] == a;
    assert before + more == before + actions + [a];
  }

  /** A connection that keeps its slot through a step is told just its notices. */
  lemma HolderTold(cfg: Config, w: World, a: Action, ref: nat, role: Role, c: Conn)
    requires WorldOk(cfg, w) && !a.Restart?
    requires Holder(w.st, ref, role, c) && Holder(Next(cfg, w, a).st, ref, role, c)
    ensures Next(cfg, w, a).st.heap[ref].At(role).log ==
              w.st.heap[ref].At(role).log + NoticesTo(cfg, w, a, ref, role)
  {
    hide Next, Memory, NoticesTo, Farewell, Room.At, Inv, TokensOk, DiskOk;
    NextSlots(cfg, w, a, ref, role);
    SeatedIsAttached(cfg, w, ref, role, c);
    AttachedCannot(cfg, w, a, ref, role);
  }

  lemma SeatedIsAttached(cfg: Config, w: World, ref: nat, role: Role, c: Conn)
    requires WorldOk(cfg, w) && Holder(w.st, ref, role, c)
    ensures Sits(w.st, c, ref, role)
  {
    hide Held, Numbered, Entombed, TokensOk, DiskOk, RoomOk;
    FitsAt(cfg, w.births, w.st.heap, w.st.sessions, ref);
  }

  /** Nobody attaches twice. */
  lemma AttachedCannot(cfg: Config, w: World, a: Action, ref: nat, role: Role)
    requires Linked(w.st)
    ensures Attaches(cfg, w, a, ref, role) ==> a.c !in w.st.sessions
  {
    hide Ask, EnterStep, RejoinIn, RecreateStep, Checked;
  }

  /** While a connection keeps its slot it hears, in order, exactly what it is to be told: each new signal of
      its peer, as it was sent, and the peer's comings and goings. Anything else but a restart may happen
      meanwhile, in its room and in others. */
  lemma {:induction false} HeardWhileThere(cfg: Config, before: seq<Action>, actions: seq<Action>, ref: nat, role: Role,
                                           c: Conn)
    requires Stays(cfg, before, actions, ref, role, c)
    ensures var start, st := Run(cfg, before).st, Run(cfg, before + actions).st;
            && Holder(start, ref, role, c) && Holder(st, ref, role, c)
            && st.heap[ref].At(role).log ==
                 start.heap[ref].At(role).log + NoticesOf(cfg, before, actions, ref, role)
            && SignalsIn(NoticesOf(cfg, before, actions, ref, role)) == SentTo(cfg, before, actions, ref, role)
    decreases |actions|
  {
    hide Run, Next, Stays, NoticesTo, SentIn, SignalsIn, Room.At, WorldOk;
    if actions == [] {
      assert before + actions == before && actions[..0] == actions;
      NothingHeard(cfg, before, ref, role, c);
    } else {
      var n := |actions| - 1;
      var fewer, a := actions[..n], actions[n];
      assert fewer + [a] == actions;
      StaysLess(cfg, before, fewer, a, ref, role, c);
      HeardWhileThere(cfg, before, fewer, ref, role, c);
      var w := Run(cfg, before + fewer);
      EveryRunIsOk(cfg, before + fewer);
      RunMore(cfg, before + fewer, a);
      assert before + fewer + [a] == before + actions;
      HolderTold(cfg, w, a, ref, role, c);
      NoticesCarry(cfg, w, a, ref, role);
      SignalsAppend(NoticesOf(cfg, before, fewer, ref, role), NoticesTo(cfg, w, a, ref, role));
      assert Run(cfg, before).st.heap[ref].At(role).log
             + (NoticesOf(cfg, before, fewer, ref, role) + NoticesTo(cfg, w, a, ref, role))
          == Run(cfg, before).st.heap[ref].At(role).log + NoticesOf(cfg, before, fewer, ref, role)
             + NoticesTo(cfg, w, a, ref, role);
    }
  }

  lemma NothingHeard(cfg: Config, before: seq<Action>, ref: nat, role: Role, c: Conn)
    requires Stays(cfg, before, [], ref, role, c)
    ensures Holder(Run(cfg, before).st, ref, role, c)
    ensures NoticesOf(cfg, before, [], ref, role) == [] && SentTo(cfg, before, [], ref, role) == []
    ensures SignalsIn([]) == []
    ensures var log := Run(cfg, before).st.heap[ref].At(role).log; log + [] == log
  {
    hide Run;
    var none: seq<Action> := [];
    assert before + none[..0] == before;
    assert Holder(Run(cfg, before + none[..0]).st, ref, role, c);
  }

  // ---------------------------------------------------------------- rejoins and their peers

  /** In every run a rejoin into a registered room tells a peer that is there just one thing: to start
      anew if and only if the epoch is another than the slot had, and otherwise that the side is back. A peer
      that is away is told nothing. */
  lemma RejoinTellsPeer(cfg: Config, actions: seq<Action>, a: Action, ref: nat, role: Role)
    requires Rejoins(cfg, Run(cfg, actions), a, ref, role) && ref < |Run(cfg, actions).st.heap|
    ensures var st, st' := Run(cfg, actions).st, Run(cfg, actions + [a]).st;
            && ref < |st'.heap|
            && var was, after := st.heap[ref].At(role.Other()), st'.heap[ref].At(role.Other());
               && after.conn == was.conn && after.epoch == was.epoch
               && (was.conn.None? ==> after.log == was.log)
               && (was.conn.Some? ==>
                     after.log == was.log + [if a.rejoin.epoch == st.heap[ref].At(role).epoch
                                             then PeerRejoined(role, a.rejoin.epoch)
                                             else PeerReset(role, a.rejoin.epoch)])
  {
    hide Run, Next, Memory, Farewell, Room.At, Joins, WorldOk, ComesBack;
    var w := Run(cfg, actions);
    EveryRunIsOk(cfg, actions);
    RunMore(cfg, actions, a);
    NextSlots(cfg, w, a, ref, role.Other());
    OneRole(cfg, w, a, ref, role);
    NotBoth(cfg, w, a, ref);
    var log := w.st.heap[ref].At(role.Other()).log;
    assert log + [] == log;
  }

  lemma NotBoth(cfg: Config, w: World, a: Action, ref: nat)
    requires Linked(w.st) && a.RejoinRoom? && ref < |w.st.heap|
    ensures !Joins(cfg, w, a, ref) && Farewell(cfg, w.st, a, ref).None?
  {
  }
}
