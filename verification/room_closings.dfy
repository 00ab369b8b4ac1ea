/** How the server closes connections, in every run: which steps close which, and with what code. */
module RoomClosings {
  import opened Options
  import opened LruSpec
  import opened Tombstone
  import opened RoomModel
  import opened RoomInvariants
  import opened RoomSweep
  import opened RoomRuns
  import opened RoomTheorems
  import opened RoomEpochs
  import opened RoomAbsence
  import opened RoomAdmission
  import opened RoomEffects

  /** Connection c is in this slot and in no other. */
  ghost predicate Alone(st: State, ref: nat, role: Role, c: Conn) {
    && Holder(st, ref, role, c)
    && forall at, other :: 0 <= at < |st.heap| && Holder(st, at, other, c) ==> at == ref && other == role
  }

  lemma SeatedIsAlone(cfg: Config, w: World, ref: nat, role: Role, c: Conn)
    requires WorldOk(cfg, w) && Holder(w.st, ref, role, c)
    ensures Alone(w.st, ref, role, c) && Sits(w.st, c, ref, role)
  {
    hide WorldOk, Room.At;
    SeatedIsAttached(cfg, w, ref, role, c);
    forall at, other: Role | 0 <= at < |w.st.heap| && Holder(w.st, at, other, c)
      ensures at == ref && other == role
    {
      SeatedIsAttached(cfg, w, at, other, c);
    }
  }

  /** How c stands among the closed: as before, or closed with this code. */
  ghost predicate ClosedAs(st: State, st': State, c: Conn, code: Option<CloseCode>) {
    if code.Some? then c in st'.closing && st'.closing[c] == code.value
    else (c in st'.closing <==> c in st.closing) && (c in st.closing ==> st'.closing[c] == st.closing[c])
  }

  lemma EvictClosing(st: State, at: nat, msg: Msg, code: CloseCode)
    requires at < |st.heap|
    ensures Evict(st, at, msg, code).closing ==
              WithClosing(WithClosing(st.closing, st.heap[at].host, code), st.heap[at].guest, code)
  {
    hide ClearIn, WithClosing;
  }

  lemma EvictCloses(st: State, at: nat, msg: Msg, code: CloseCode, ref: nat, role: Role, c: Conn)
    requires at < |st.heap| && Alone(st, ref, role, c)
    ensures ClosedAs(st, Evict(st, at, msg, code), c, if at == ref then Some(code) else None)
  {
    hide Evict;
    EvictClosing(st, at, msg, code);
    assert Holder(st, ref, role, c);
    if at != ref {
      assert !Holder(st, at, Host, c) && !Holder(st, at, Guest, c);
    }
  }

  lemma AttachCloses(st: State, d: Conn, at: nat, other: Role, room: Room, ref: nat, role: Role, c: Conn)
    requires at < |st.heap| && Alone(st, ref, role, c) && d != c
    ensures ClosedAs(st, AttachAt(st, d, at, other, room), c,
                     if at == ref && other == role then Some(Replaced) else None)
  {
    if !(at == ref && other == role) {
      assert !Holder(st, at, other, c);
    }
  }

  lemma CreateCloses(cfg: Config, st: State, d: Conn, q: CreateRequest, now: int, c: Conn)
    requires c in st.sessions
    ensures ClosedAs(st, CreateStep(cfg, st, d, q, now).0, c, None)
  {
    hide Generate, NewRoom, HostIn;
  }

  lemma JoinCloses(cfg: Config, w: World, a: Action, ref: nat, role: Role, c: Conn)
    requires WorldOk(cfg, w) && a.JoinRoom? && Alone(w.st, ref, role, c) && Sits(w.st, c, ref, role)
    ensures ClosedAs(w.st, JoinStep(cfg, w.st, a.c, a.join, a.now).0, c, ClosingOf(cfg, w, a, ref, role))
  {
    hide Inv, Ask, TokensOk, DiskOk, JoinIn, Evict, Insert, ClosedFor, Alone, ClosedAs, AttachAt, ComesBack;
    AsBefore(w.st, c);
    if a.join.id.Some? {
      AskingFinds(cfg, w.births, w.st, a.join.id.value, a.now);
      if a.join.id.value in w.st.rooms && a.c != c {
        var at := w.st.rooms[a.join.id.value];
        var room := w.st.heap[at];
        var tried := room.(passwordAttempts := room.passwordAttempts + 1);
        AttachCloses(w.st, a.c, at, Guest, JoinIn(room, a.c, a.join.epoch), ref, role, c);
        TriedAlone(w.st, at, ref, role, c);
        var buried := Bury(cfg, SetRoom(w.st, at, tried), room.roomID, PasswordLockout, a.now);
        SameAlone(SetRoom(w.st, at, tried), buried, ref, role, c);
        EvictCloses(buried, at, RoomClosedMsg(PasswordLockout), ClosedRoom, ref, role, c);
        SameClosing(w.st, buried, Evict(buried, at, RoomClosedMsg(PasswordLockout), ClosedRoom), c);
        assert ClosedAs(w.st, SetRoom(w.st, at, tried), c, None) by { SameAs(w.st, SetRoom(w.st, at, tried), c); }
        NobodyInGuest(w.st, at, ref, role, c);
      }
    }
  }

  lemma AsBefore(st: State, c: Conn)
    ensures forall tomb :: ClosedAs(st, st.(tomb := tomb), c, None)
  {
  }

  lemma SameAs(st: State, st': State, c: Conn)
    requires st'.closing == st.closing
    ensures ClosedAs(st, st', c, None)
  {
  }

  lemma SameClosing(st: State, st1: State, st2: State, c: Conn)
    requires st1.closing == st.closing
    ensures forall code :: ClosedAs(st1, st2, c, code) <==> ClosedAs(st, st2, c, code)
  {
  }

  lemma SameAlone(st: State, st': State, ref: nat, role: Role, c: Conn)
    requires Alone(st, ref, role, c) && st'.heap == st.heap
    ensures Alone(st', ref, role, c)
  {
    forall at, other: Role | 0 <= at < |st'.heap| && Holder(st', at, other, c)
      ensures at == ref && other == role
    {
      assert Holder(st, at, other, c);
    }
  }

  lemma TriedAlone(st: State, at: nat, ref: nat, role: Role, c: Conn)
    requires at < |st.heap| && Alone(st, ref, role, c)
    ensures Alone(SetRoom(st, at, st.heap[at].(passwordAttempts := st.heap[at].passwordAttempts + 1)), ref, role, c)
  {
    var st' := SetRoom(st, at, st.heap[at].(passwordAttempts := st.heap[at].passwordAttempts + 1));
    forall i, other: Role | 0 <= i < |st'.heap| && Holder(st', i, other, c)
      ensures i == ref && other == role
    {
      assert Holder(st, i, other, c);
    }
  }

  lemma NobodyInGuest(st: State, at: nat, ref: nat, role: Role, c: Conn)
    requires at < |st.heap| && Alone(st, ref, role, c)
    ensures st.heap[at].guest.conn.None? ==> !(at == ref && role.Guest?)
  {
    assert Holder(st, ref, role, c);
  }

  lemma RejoinCloses(cfg: Config, w: World, a: Action, ref: nat, role: Role, c: Conn)
    requires Linked(w.st) && a.RejoinRoom? && Alone(w.st, ref, role, c) && Sits(w.st, c, ref, role)
    ensures ClosedAs(w.st, RejoinStep(cfg, w.st, a.c, Checked(w.tokens, a.rejoin), a.now).0, c,
                     ClosingOf(cfg, w, a, ref, role))
  {
    hide Ask, RejoinIn, NewRoom, Alone, JoinStep;
    CheckedSame(w.tokens, a.rejoin);
    var q := Checked(w.tokens, a.rejoin);
    if q.credential.Verified? && q.credential.token.roomID in w.st.rooms && a.c != c {
      var t := q.credential.token;
      var tomb := Ask(w.st.tomb, t.roomID, a.now, cfg.tombstoneTtl).0;
      var at := w.st.rooms[t.roomID];
      SameAlone(w.st, w.st.(tomb := tomb), ref, role, c);
      AttachCloses(w.st.(tomb := tomb), a.c, at, t.role, RejoinIn(cfg, w.st.heap[at], t.role, a.c, a.rejoin.epoch,
                                                                  false, a.now), ref, role, c);
    }
  }

  /** How a connection is closed that is in the slot: with the room, or because another takes its place. */
  ghost function ClosingOf(cfg: Config, w: World, a: Action, ref: nat, role: Role): Option<CloseCode>
    requires Linked(w.st) && ref < |w.st.heap|
  {
    match Farewell(cfg, w.st, a, ref)
    case Some((_, code)) => Some(code)
    case None => if Attaches(cfg, w, a, ref, role) then Some(Replaced) else None
  }

  lemma QuietCloses(cfg: Config, w: World, a: Action, ref: nat, role: Role, c: Conn)
    requires Linked(w.st) && ref < |w.st.heap| && Alone(w.st, ref, role, c) && (a.SweepRoom? || a.ShutDownRoom?)
    ensures ClosedAs(w.st, Next(cfg, w, a).st, c, ClosingOf(cfg, w, a, ref, role))
  {
    hide Alone, Evict, CreateStep, JoinStep, RejoinStep, SignalStep, ReportStep, CloseStep, DetachStep, Live, Marshal,
         Unmarshal, RestoreAll, DueFor, Farewell;
    NobodyActs(cfg, w, a, ref);
    NotHere(cfg, w.st, a, ref);
    if a.SweepRoom? && a.ref == ref {
      FarewellIsDue(cfg, w.st, a, ref);
    }
    if a.ref < |w.st.heap| {
      EvictCloses(w.st, a.ref, ServerShutdown, ShuttingDown, ref, role, c);
      if a.SweepRoom? && DueFor(w.st.heap[a.ref], a.now).Some? {
        var (msg, code) := DueFor(w.st.heap[a.ref], a.now).value;
        EvictCloses(w.st, a.ref, msg, code, ref, role, c);
      }
    }
  }

  lemma CloseRoomCloses(cfg: Config, w: World, a: Action, ref: nat, role: Role, c: Conn)
    requires Linked(w.st) && Alone(w.st, ref, role, c) && a.CloseRoom?
    ensures ClosedAs(w.st, CloseStep(cfg, w.st, a.c, a.now).0, c, ClosingOf(cfg, w, a, ref, role))
  {
    hide Alone, Evict, Insert, JoinStep, RejoinStep;
    NobodyActs(cfg, w, a, ref);
    if a.c in w.st.sessions {
      var at := w.st.sessions[a.c].ref;
      var buried := Bury(cfg, w.st, w.st.heap[at].roomID, ClosedByPeer, a.now);
      SameAlone(w.st, buried, ref, role, c);
      EvictCloses(buried, at, RoomClosedMsg(ClosedByPeer), ClosedRoom, ref, role, c);
    }
  }

  lemma OthersDoNotClose(cfg: Config, w: World, a: Action, ref: nat, role: Role, c: Conn)
    requires Linked(w.st) && Alone(w.st, ref, role, c) && (a.SendSignal? || a.PeerConnected? || a.Detach?)
    ensures ClosedAs(w.st, Next(cfg, w, a).st, c, ClosingOf(cfg, w, a, ref, role))
  {
    hide Alone, SignalIn, ReportIn, LeaveIn, JoinStep, RejoinStep, CreateStep, CloseStep, RestoreAll;
  }

  /** In every run: a connection in a slot is closed by a step if and only if the step lets go of its room, or
      seats another connection in its slot, and with the code that belongs to it. */
  lemma ClosedWith(cfg: Config, actions: seq<Action>, a: Action, ref: nat, role: Role, c: Conn)
    requires Holder(Run(cfg, actions).st, ref, role, c) && !a.Restart?
    ensures ClosedAs(Run(cfg, actions).st, Run(cfg, actions + [a]).st, c,
                     ClosingOf(cfg, Run(cfg, actions), a, ref, role))
  {
    hide Run, WorldOk, Alone, ClosedAs, CreateStep, JoinStep, RejoinStep, CloseStep, DetachStep, SignalStep, ReportStep,
         Marshal, Unmarshal, Live, EvictFor, Farewell, ComesBack, RestoreAll;
    var w := Run(cfg, actions);
    EveryRunIsOk(cfg, actions);
    RunMore(cfg, actions, a);
    SeatedIsAlone(cfg, w, ref, role, c);
    AsBefore(w.st, c);
    match a
    case CreateRoom(d, q, now) =>
      CreateCloses(cfg, w.st, d, q, now, c);
      NobodyCloses(cfg, w, a, ref, role);
    case JoinRoom(_, _, _) => JoinCloses(cfg, w, a, ref, role, c);
    case RejoinRoom(_, _, _) => RejoinCloses(cfg, w, a, ref, role, c);
    case SendSignal(_, _, _, _, _) => OthersDoNotClose(cfg, w, a, ref, role, c);
    case PeerConnected(_, _) => OthersDoNotClose(cfg, w, a, ref, role, c);
    case Detach(_, _) => OthersDoNotClose(cfg, w, a, ref, role, c);
    case CloseRoom(_, _) => CloseRoomCloses(cfg, w, a, ref, role, c);
    case SweepRoom(_, _) => QuietCloses(cfg, w, a, ref, role, c);
    case ShutDownRoom(_) => QuietCloses(cfg, w, a, ref, role, c);
    case _ =>
      NobodyCloses(cfg, w, a, ref, role);
  }

  lemma NobodyCloses(cfg: Config, w: World, a: Action, ref: nat, role: Role)
    requires Linked(w.st) && ref < |w.st.heap|
    requires a.CreateRoom? || a.SweepTombstones? || a.FlushSave? || a.FlushDelete? || a.SpoilFile?
    ensures ClosingOf(cfg, w, a, ref, role).None?
  {
  }
}
