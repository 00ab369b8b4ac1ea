/** What becomes of the signals sent to a peer that is away, over whole runs: whatever else happens meanwhile,
    in its room or in others, it hears them all when it comes back exactly if its buffer has room for all. */
module RoomAbsence {
  import opened Options
  import opened LruSpec
  import opened Tombstone
  import opened RoomModel
  import opened RoomRules
  import opened RoomRuns
  import opened RoomTheorems
  import opened RoomEpochs

  /** Connection a.c speaks to the slot of role in the room at ref. */
  predicate Speaks(st: State, a: Action, ref: nat, role: Role) {
    a.SendSignal? && a.c in st.sessions && st.sessions[a.c] == Attached(ref, role.Other())
  }

  /** The signal that a sends to that slot, if its number is new. */
  function SentIn(st: State, a: Action, ref: nat, role: Role): seq<Signal> {
    if Speaks(st, a, ref, role) && a.wellFormed && ref < |st.heap|
       && a.seqNo > 0 && a.seqNo > st.heap[ref].At(role.Other()).lastSeq
    then [Signal(role.Other(), st.heap[ref].At(role.Other()).epoch, a.seqNo, a.data, a.now)]
    else []
  }

  /** The sender is told that the buffer has overflowed. */
  ghost predicate ToldIn(cfg: Config, st: State, a: Action, ref: nat, role: Role)
    requires Linked(st)
  {
    && Speaks(st, a, ref, role)
    && SignalStep(cfg, st, a.c, a.seqNo, a.wellFormed, a.data, a.now).1 == Refused(SignalBufferOverflow)
  }

  /** All that is sent to the slot by the actions after before. */
  ghost function SentTo(cfg: Config, before: seq<Action>, actions: seq<Action>, ref: nat, role: Role): seq<Signal> {
    if actions == [] then []
    else
      var n := |actions| - 1;
      SentTo(cfg, before, actions[..n], ref, role)
      + SentIn(Run(cfg, before + actions[..n]).st, actions[n], ref, role)
  }

  ghost predicate Told(cfg: Config, before: seq<Action>, actions: seq<Action>, ref: nat, role: Role) {
    exists k :: 0 <= k < |actions| && ToldIn(cfg, Run(cfg, before + actions[..k]).st, actions[k], ref, role)
  }

  ghost predicate Empty(st: State, ref: nat, role: Role) {
    ref < |st.heap| && st.heap[ref].At(role).conn.None?
  }

  /** From the end of before until after actions nobody is in the slot, and the process is not restarted. */
  ghost predicate Away(cfg: Config, before: seq<Action>, actions: seq<Action>, ref: nat, role: Role) {
    && (forall k :: 0 <= k <= |actions| ==> Empty(Run(cfg, before + actions[..k]).st, ref, role))
    && (forall k :: 0 <= k < |actions| ==> !actions[k].Restart?)
  }

  predicate Holds(cfg: Config, signals: seq<Signal>) {
    |signals| <= cfg.maxBufferedSignals && Bytes(signals) <= cfg.maxBufferedSignalBytes
  }

  // ---------------------------------------------------------------- one step

  /** An empty slot that stays empty is as it was, except for the peer's signals. */
  ghost predicate Waits(slot: Slot, slot': Slot) {
    slot'.conn.None? ==>
      slot'.epoch == slot.epoch && slot'.buffer == slot.buffer && slot'.bufferBytes == slot.bufferBytes
  }

  lemma JoinWaits(room: Room, role: Role, c: Conn, epoch: string)
    requires room.At(role).conn.None?
    ensures Waits(room.At(role), JoinIn(room, c, epoch).At(role))
  {
  }

  lemma RejoinWaits(cfg: Config, room: Room, role: Role, other: Role, c: Conn, epoch: string, now: int)
    requires room.At(role).conn.None?
    ensures Waits(room.At(role), RejoinIn(cfg, room, other, c, epoch, false, now).At(role))
  {
  }

  lemma LeaveWaits(cfg: Config, room: Room, role: Role, other: Role, c: Conn, now: int)
    requires room.At(role).conn.None?
    ensures Waits(room.At(role), ReportIn(cfg, room, other, now).At(role))
    ensures Waits(room.At(role), LeaveIn(cfg, room, other, c, now).0.At(role))
  {
  }

  /** What a signal does to the slot. */
  lemma SignalWaits(cfg: Config, room: Room, role: Role, other: Role, seqNo: int, data: string, now: int)
    requires room.At(role).conn.None?
    ensures var (room', overflow) := SignalIn(cfg, room, other, seqNo, data, now);
            var slot, slot' := room.At(role), room'.At(role);
            if other == role || seqNo <= room.At(other).lastSeq then Waits(slot, slot') && (overflow ==> other == role)
            else
              && slot'.epoch == slot.epoch && overflow == Overflows(cfg, slot, data)
              && (overflow ==> slot'.buffer == [] && slot'.bufferBytes == 0)
              && (!overflow ==>
                    && slot'.buffer == slot.buffer + [Signal(other, room.At(other).epoch, seqNo, data, now)]
                    && slot'.bufferBytes == slot.bufferBytes + |data|)
  {
  }

  ghost predicate SlotWaits(st: State, st': State, ref: nat, role: Role) {
    ref < |st.heap| && ref < |st'.heap| && Waits(st.heap[ref].At(role), st'.heap[ref].At(role))
  }

  lemma EvictWaits(st: State, at: nat, msg: Msg, code: CloseCode, ref: nat, role: Role)
    requires at < |st.heap| && Empty(st, ref, role)
    ensures SlotWaits(st, Evict(st, at, msg, code), ref, role)
    ensures Empty(Evict(st, at, msg, code), ref, role)
  {
  }

  lemma CreateStepWaits(cfg: Config, st: State, c: Conn, q: CreateRequest, now: int, ref: nat, role: Role)
    requires ref < |st.heap|
    ensures SlotWaits(st, CreateStep(cfg, st, c, q, now).0, ref, role)
  {
    hide Waits, Generate, NewRoom, Room.At;
    WaitsSame(st.heap[ref].At(role));
  }

  lemma JoinStepWaits(cfg: Config, st: State, c: Conn, q: JoinRequest, now: int, ref: nat, role: Role)
    requires Linked(st) && Empty(st, ref, role)
    ensures SlotWaits(st, JoinStep(cfg, st, c, q, now).0, ref, role)
  {
    hide Waits, Ask, EnterStep, Room.At;
    WaitsSame(st.heap[ref].At(role));
    if q.id.Some? && q.id.value in st.rooms {
      var asked := st.(tomb := Ask(st.tomb, q.id.value, now, cfg.tombstoneTtl).0);
      EnterWaits(cfg, asked, c, q, st.rooms[q.id.value], now, ref, role);
    }
  }

  lemma RejoinStepWaits(cfg: Config, st: State, c: Conn, q: RejoinRequest, now: int, ref: nat, role: Role)
    requires Linked(st) && Empty(st, ref, role)
    ensures SlotWaits(st, RejoinStep(cfg, st, c, q, now).0, ref, role)
  {
    hide Waits, Ask, NewRoom, RejoinIn, Room.At;
    WaitsSame(st.heap[ref].At(role));
    if q.credential.Verified? {
      RejoinWaits(cfg, st.heap[ref], role, q.credential.token.role, c, q.epoch, now);
    }
  }

  lemma WaitsSame(slot: Slot)
    ensures Waits(slot, slot)
  {
  }

  lemma EnterWaits(cfg: Config, st: State, c: Conn, q: JoinRequest, at: nat, now: int, ref: nat, role: Role)
    requires at < |st.heap| && Empty(st, ref, role)
    ensures SlotWaits(st, EnterStep(cfg, st, c, q, at, now).0, ref, role)
  {
    hide Waits, JoinIn, Evict, Insert, Room.At;
    var room := st.heap[at];
    WaitsSame(st.heap[ref].At(role));
    JoinWaits(st.heap[ref], role, c, q.epoch);
    TriedWaits(room, role);
    var tried := SetRoom(st, at, room.(passwordAttempts := room.passwordAttempts + 1));
    EvictWaits(Bury(cfg, tried, room.roomID, PasswordLockout, now), at, RoomClosedMsg(PasswordLockout), ClosedRoom,
               ref, role);
  }

  lemma TriedWaits(room: Room, role: Role)
    ensures room.(passwordAttempts := room.passwordAttempts + 1).At(role) == room.At(role)
  {
  }

  lemma SessionsWait(cfg: Config, st: State, c: Conn, now: int, ref: nat, role: Role)
    requires Linked(st) && Empty(st, ref, role)
    ensures SlotWaits(st, ReportStep(cfg, st, c, now).0, ref, role)
    ensures SlotWaits(st, CloseStep(cfg, st, c, now).0, ref, role)
    ensures SlotWaits(st, DetachStep(cfg, st, c, now), ref, role)
  {
    hide Waits, ReportIn, LeaveIn, Evict, Insert, Room.At;
    WaitsSame(st.heap[ref].At(role));
    if c in st.sessions {
      var a := st.sessions[c];
      LeaveWaits(cfg, st.heap[ref], role, a.role, c, now);
      EvictWaits(Bury(cfg, st, st.heap[a.ref].roomID, ClosedByPeer, now), a.ref, RoomClosedMsg(ClosedByPeer),
                 ClosedRoom, ref, role);
    }
  }

  /** The slot after a, if nobody has come to it, and whether the sender is told of an overflow. */
  ghost predicate Takes(cfg: Config, slot: Slot, slot': Slot, sent: seq<Signal>, told: bool) {
    if sent == [] then Waits(slot, slot') && !told
    else
      && slot'.epoch == slot.epoch && told == Overflows(cfg, slot, sent[0].data)
      && (told ==> slot'.buffer == [] && slot'.bufferBytes == 0)
      && (!told ==> slot'.buffer == slot.buffer + sent && slot'.bufferBytes == slot.bufferBytes + |sent[0].data|)
  }

  lemma SignalTakes(cfg: Config, st: State, a: Action, ref: nat, role: Role)
    requires Linked(st) && a.SendSignal? && Empty(st, ref, role)
    ensures var st' := SignalStep(cfg, st, a.c, a.seqNo, a.wellFormed, a.data, a.now).0;
            && ref < |st'.heap|
            && Takes(cfg, st.heap[ref].At(role), st'.heap[ref].At(role), SentIn(st, a, ref, role),
                     ToldIn(cfg, st, a, ref, role))
  {
    hide Waits, SignalIn, Overflows, Room.At;
    WaitsSame(st.heap[ref].At(role));
    if a.c in st.sessions {
      SignalWaits(cfg, st.heap[ref], role, st.sessions[a.c].role, a.seqNo, a.data, a.now);
    }
  }

  lemma NextTakes(cfg: Config, w: World, a: Action, ref: nat, role: Role)
    requires Linked(w.st) && !a.Restart? && Empty(w.st, ref, role)
    ensures var st' := Next(cfg, w, a).st;
            && ref < |st'.heap|
            && Takes(cfg, w.st.heap[ref].At(role), st'.heap[ref].At(role), SentIn(w.st, a, ref, role),
                     ToldIn(cfg, w.st, a, ref, role))
  {
    hide Waits, Takes, CreateStep, JoinStep, RejoinStep, SignalStep, ReportStep, CloseStep, DetachStep, Evict, Live,
         DueFor, Overflows, Room.At, Checked;
    WaitsSame(w.st.heap[ref].At(role));
    if a.SendSignal? {
      SignalTakes(cfg, w.st, a, ref, role);
    } else {
      QuietNext(cfg, w, a, ref, role);
      QuietTakes(cfg, w.st.heap[ref].At(role), Next(cfg, w, a).st.heap[ref].At(role));
    }
  }

  lemma QuietTakes(cfg: Config, slot: Slot, slot': Slot)
    requires Waits(slot, slot')
    ensures Takes(cfg, slot, slot', [], false)
  {
  }

  lemma QuietNext(cfg: Config, w: World, a: Action, ref: nat, role: Role)
    requires Linked(w.st) && !a.Restart? && !a.SendSignal? && Empty(w.st, ref, role)
    ensures SlotWaits(w.st, Next(cfg, w, a).st, ref, role)
  {
    hide Waits, CreateStep, JoinStep, RejoinStep, SignalStep, ReportStep, CloseStep, DetachStep, Evict, Live,
         DueFor, Room.At, Checked, Marshal, Unmarshal;
    WaitsSame(w.st.heap[ref].At(role));
    match a
    case CreateRoom(c, q, now) =>
      CreateStepWaits(cfg, w.st, c, q, now, ref, role);
    case JoinRoom(c, q, now) =>
      JoinStepWaits(cfg, w.st, c, q, now, ref, role);
    case RejoinRoom(c, q, now) =>
      RejoinStepWaits(cfg, w.st, c, Checked(w.tokens, q), now, ref, role);
    case PeerConnected(c, now) =>
      SessionsWait(cfg, w.st, c, now, ref, role);
    case CloseRoom(c, now) =>
      SessionsWait(cfg, w.st, c, now, ref, role);
    case Detach(c, now) =>
      SessionsWait(cfg, w.st, c, now, ref, role);
    case SweepRoom(at, now) =>
      if at < |w.st.heap| && DueFor(w.st.heap[at], now).Some? {
        var (msg, code) := DueFor(w.st.heap[at], now).value;
        EvictWaits(w.st, at, msg, code, ref, role);
      }
    case ShutDownRoom(at) =>
      if at < |w.st.heap| {
        EvictWaits(w.st, at, ServerShutdown, ShuttingDown, ref, role);
      }
    case _ =>
  }

  // ---------------------------------------------------------------- an absence

  lemma {:induction false} BytesGrow(signals: seq<Signal>, more: seq<Signal>)
    requires |more| <= 1
    ensures Bytes(signals + more) == Bytes(signals) + if more == [] then 0 else |more[0].data|
  {
    if more == [] {
      assert signals + more == signals;
    } else {
      assert more == [more[0]];
      BytesAppend(signals, more[0]);
    }
  }

  /** The buffer is all of it, as long as that fits; otherwise it is short of something. */
  ghost predicate Kept(cfg: Config, slot: Slot, all: seq<Signal>, told: bool) {
    if Holds(cfg, all) then slot.buffer == all && slot.bufferBytes == Bytes(all) && !told
    else |slot.buffer| < |all| && told
  }

  lemma KeptMore(cfg: Config, slot: Slot, slot': Slot, all: seq<Signal>, sent: seq<Signal>, told: bool, now: bool)
    requires Kept(cfg, slot, all, told) && |sent| <= 1 && Takes(cfg, slot, slot', sent, now) && slot'.conn.None?
    ensures Kept(cfg, slot', all + sent, told || now) && slot'.epoch == slot.epoch
  {
    hide Bytes;
    BytesGrow(all, sent);
    assert sent == [] ==> all + sent == all;
  }

  lemma ToldMore(cfg: Config, before: seq<Action>, actions: seq<Action>, a: Action, ref: nat, role: Role)
    ensures Told(cfg, before, actions + [a], ref, role) <==>
              Told(cfg, before, actions, ref, role) || ToldIn(cfg, Run(cfg, before + actions).st, a, ref, role)
  {
    hide ToldIn, Run;
    var more := actions + [a];
    assert forall k :: 0 <= k < |actions| ==> more[..k] == actions[..k] && more[k] == actions[k];
    assert more[..|actions|] == actions && more[|actions|] == a;
  }

  lemma AwayLess(cfg: Config, before: seq<Action>, actions: seq<Action>, a: Action, ref: nat, role: Role)
    requires Away(cfg, before, actions + [a], ref, role)
    ensures Away(cfg, before, actions, ref, role) && !a.Restart?
    ensures Empty(Run(cfg, before + actions).st, ref, role) && Empty(Run(cfg, before + actions + [a]).st, ref, role)
  {
    hide Run, Empty;
    var more := actions + [a];
    assert forall k :: 0 <= k <= |actions| ==> more[..k] == actions[..k];
    assert forall k :: 0 <= k < |actions| ==> more[k] == actions[k];
    assert more[..|actions|] == actions && more[..|more|] == more && more[|actions|] == a;
    assert before + more == before + actions + [a];
  }

  /** Whatever happens in an absence, the slot keeps all that is sent to it, and nobody is told otherwise,
      exactly if it has room for all of it together with what it held before. */
  lemma {:induction false} KeptWhileAway(cfg: Config, before: seq<Action>, actions: seq<Action>, ref: nat, role: Role)
    requires Away(cfg, before, actions, ref, role)
    ensures var start, st := Run(cfg, before).st, Run(cfg, before + actions).st;
            && Empty(start, ref, role) && Empty(st, ref, role)
            && st.heap[ref].At(role).epoch == start.heap[ref].At(role).epoch
            && Kept(cfg, st.heap[ref].At(role),
                    start.heap[ref].At(role).buffer + SentTo(cfg, before, actions, ref, role),
                    Told(cfg, before, actions, ref, role))
    decreases |actions|
  {
    hide Run, Next, Kept, Takes, ToldIn, Away, Told, SentIn, Room.At;
    if actions == [] {
      assert before + actions == before && actions[..0] == actions;
      assert Away(cfg, before, actions, ref, role);
      NothingYet(cfg, before, ref, role);
    } else {
      var n := |actions| - 1;
      var fewer, a := actions[..n], actions[n];
      assert fewer + [a] == actions;
      AwayLess(cfg, before, fewer, a, ref, role);
      KeptWhileAway(cfg, before, fewer, ref, role);
      var w := Run(cfg, before + fewer);
      RunMore(cfg, before + fewer, a);
      assert before + fewer + [a] == before + actions;
      NextTakes(cfg, w, a, ref, role);
      ToldMore(cfg, before, fewer, a, ref, role);
      OneAtMost(w.st, a, ref, role);
      var start, sent := Run(cfg, before).st.heap[ref].At(role).buffer, SentTo(cfg, before, fewer, ref, role);
      KeptMore(cfg, w.st.heap[ref].At(role), Run(cfg, before + actions).st.heap[ref].At(role), start + sent,
               SentIn(w.st, a, ref, role), Told(cfg, before, fewer, ref, role), ToldIn(cfg, w.st, a, ref, role));
      assert start + sent + SentIn(w.st, a, ref, role) == start + (sent + SentIn(w.st, a, ref, role));
    }
  }

  lemma OneAtMost(st: State, a: Action, ref: nat, role: Role)
    ensures |SentIn(st, a, ref, role)| <= 1
  {
  }

  lemma NothingYet(cfg: Config, before: seq<Action>, ref: nat, role: Role)
    requires Away(cfg, before, [], ref, role)
    ensures var st := Run(cfg, before).st;
            && Empty(st, ref, role) && !Told(cfg, before, [], ref, role)
            && var slot := st.heap[ref].At(role);
               Kept(cfg, slot, slot.buffer + SentTo(cfg, before, [], ref, role), false)
  {
    hide Run;
    var none: seq<Action> := [];
    assert before + none[..0] == before;
    assert Empty(Run(cfg, before + none[..0]).st, ref, role);
    BuffersAreAccounted(cfg, before, ref, role);
    var buffer := Run(cfg, before).st.heap[ref].At(role).buffer;
    assert buffer + [] == buffer;
  }

  /** The rejoin is accepted, into the room at ref, which is still registered. */
  ghost predicate ComesBack(cfg: Config, w: World, c: Conn, q: RejoinRequest, now: int, ref: nat, role: Role)
    requires Linked(w.st)
  {
    var credential := Checked(w.tokens, q).credential;
    && RejoinStep(cfg, w.st, c, Checked(w.tokens, q), now).1.Rejoined?
    && credential.Verified? && credential.token.role == role
    && credential.token.roomID in w.st.rooms && w.st.rooms[credential.token.roomID] == ref
  }

  /** A peer that comes back under the epoch it left with hears what was buffered for it when it left and
      all that was sent to it since, in order, if and only if that fits its buffer; if it does not, and only
      then, a sender has been told. Meanwhile anything but a restart may happen in this room and in others. */
  lemma AwayAndBack(cfg: Config, before: seq<Action>, actions: seq<Action>, ref: nat, role: Role, c: Conn,
                    q: RejoinRequest, now: int)
    requires Away(cfg, before, actions, ref, role) && ref < |Run(cfg, before).st.heap|
    requires ComesBack(cfg, Run(cfg, before + actions), c, q, now, ref, role)
    requires q.epoch == Run(cfg, before).st.heap[ref].At(role).epoch
    ensures var st := Run(cfg, before + actions + [RejoinRoom(c, q, now)]).st;
            var all := Run(cfg, before).st.heap[ref].At(role).buffer + SentTo(cfg, before, actions, ref, role);
            && ref < |st.heap| && st.heap[ref].At(role).conn == Some(c)
            && (st.heap[ref].At(role).log == Replayed(all) <==> Holds(cfg, all))
            && (Told(cfg, before, actions, ref, role) <==> !Holds(cfg, all))
  {
    hide Run, Away, Told, SentTo, Holds, Ask, RejoinIn;
    KeptWhileAway(cfg, before, actions, ref, role);
    var w := Run(cfg, before + actions);
    CheckedSame(w.tokens, q);
    RunMore(cfg, before + actions, RejoinRoom(c, q, now));
    BackIn(cfg, w.st.heap[ref], role, c, now);
  }

  lemma BackIn(cfg: Config, room: Room, role: Role, c: Conn, now: int)
    ensures var slot := RejoinIn(cfg, room, role, c, room.At(role).epoch, false, now).At(role);
            slot.conn == Some(c) && slot.log == Replayed(room.At(role).buffer)
  {
  }
}
