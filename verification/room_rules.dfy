/** What every handler keeps inside one room: the accounting of its buffers, its dates, and the order
    in which either side hears the other. */
module RoomRules {
  import opened Options
  import opened RoomModel

  // ---------------------------------------------------------------- buffers

  function Bytes(buffer: seq<Signal>): nat {
    if buffer == [] then 0 else Bytes(buffer[..|buffer| - 1]) + |buffer[|buffer| - 1].data|
  }

  /** A slot's buffer is counted, bounded, and holds only what the opposite role sent. */
  ghost predicate Accounted(cfg: Config, slot: Slot, sender: Role) {
    && slot.bufferBytes == Bytes(slot.buffer) <= cfg.maxBufferedSignalBytes
    && |slot.buffer| <= cfg.maxBufferedSignals
    && forall i :: 0 <= i < |slot.buffer| ==> slot.buffer[i].fromRole == sender
  }

  lemma BytesAppend(buffer: seq<Signal>, s: Signal)
    ensures Bytes(buffer + [s]) == Bytes(buffer) + |s.data|
  {
    assert (buffer + [s])[..|buffer|] == buffer;
  }

  // ---------------------------------------------------------------- dates

  /** The earlier of two times. */
  predicate Earlier(t: int, a: int, b: int) {
    t <= a && t <= b && (t == a || t == b)
  }

  /** createdAt is the origin of the lineage, or its whole second once a token has carried it. */
  ghost predicate Dated(cfg: Config, room: Room) {
    && room.createdAt <= room.origin && room.createdAt / SECOND == room.origin / SECOND
    && Earlier(room.expiresAt, room.instantiatedAt + cfg.roomMaxLifetime, room.createdAt + cfg.rejoinTokenTtl)
    && (room.peerDeadlineAt.Some? ==> room.peerDeadlineAt.value <= room.expiresAt)
  }

  ghost predicate TokenDated(t: Token) {
    t.createdAt == t.origin / SECOND
  }

  predicate EpochsFit(room: Room) {
    |room.host.epoch| <= MAX_EPOCH_LEN && |room.guest.epoch| <= MAX_EPOCH_LEN
  }

  ghost predicate RoomOk(cfg: Config, room: Room) {
    Accounted(cfg, room.host, Guest) && Accounted(cfg, room.guest, Host) && Dated(cfg, room) && EpochsFit(room)
  }

  /** A password given as "" is none. */
  predicate Protects(password: Option<string>, given: string) {
    (password.None? <==> given == "") && (password.Some? ==> password.value == given)
  }

  /** What names a room and where it comes from does not change. */
  predicate SameRoom(room: Room, room': Room) {
    && room'.roomID == room.roomID && room'.createdAt == room.createdAt && room'.expiresAt == room.expiresAt
    && room'.instantiatedAt == room.instantiatedAt
    && room'.origin == room.origin && room'.ownerIP == room.ownerIP && room'.password == room.password
  }

  lemma NewRoomOk(cfg: Config, id: string, now: int, createdAt: int, password: Option<string>, ip: string, origin: int)
    requires createdAt <= origin && createdAt / SECOND == origin / SECOND
    ensures RoomOk(cfg, NewRoom(cfg, id, now, createdAt, password, ip, origin))
  {
  }

  lemma TokenCarriesOrigin(cfg: Config, room: Room, role: Role)
    requires Dated(cfg, room)
    ensures TokenDated(TokenFor(room, role))
  {
  }

  lemma OriginFromToken(t: Token)
    requires TokenDated(t)
    ensures t.createdAt * SECOND <= t.origin && t.createdAt * SECOND / SECOND == t.origin / SECOND
  {
  }

  lemma JoinKeepsRoom(cfg: Config, room: Room, c: Conn, epoch: string)
    requires RoomOk(cfg, room) && !BadEpoch(epoch)
    ensures RoomOk(cfg, JoinIn(room, c, epoch)) && SameRoom(room, JoinIn(room, c, epoch))
  {
    hide Bytes;
  }

  lemma RejoinKeepsRoom(cfg: Config, room: Room, role: Role, c: Conn, epoch: string, recreated: bool, now: int)
    requires RoomOk(cfg, room) && !BadEpoch(epoch)
    ensures var room' := RejoinIn(cfg, room, role, c, epoch, recreated, now);
            RoomOk(cfg, room') && SameRoom(room, room')
  {
    hide Accounted, Replayed;
    HalvesAccounted(cfg, room, role);
    var me, you := room.At(role), room.At(role.Other());
    var room' := RejoinIn(cfg, room, role, c, epoch, recreated, now);
    SameBuffer(cfg, me, room'.At(role), role.Other());
    SameBuffer(cfg, you, room'.At(role.Other()), role);
    HalvesAccounted(cfg, room', role);
  }

  lemma HalvesAccounted(cfg: Config, room: Room, role: Role)
    ensures Accounted(cfg, room.host, Guest) && Accounted(cfg, room.guest, Host) <==>
              Accounted(cfg, room.At(role), role.Other()) && Accounted(cfg, room.At(role.Other()), role)
  {
  }

  lemma SameBuffer(cfg: Config, slot: Slot, slot': Slot, sender: Role)
    requires Accounted(cfg, slot, sender)
    requires || (slot'.buffer == slot.buffer && slot'.bufferBytes == slot.bufferBytes)
             || (slot'.buffer == [] && slot'.bufferBytes == 0)
    ensures Accounted(cfg, slot', sender)
  {
    NothingCounts();
  }

  lemma MoreBuffer(cfg: Config, slot: Slot, sender: Role, s: Signal)
    requires Accounted(cfg, slot, sender) && !Overflows(cfg, slot, s.data) && s.fromRole == sender
    ensures Accounted(cfg, slot.(buffer := slot.buffer + [s], bufferBytes := slot.bufferBytes + |s.data|), sender)
  {
    hide Bytes;
    BytesAppend(slot.buffer, s);
  }

  /** What a signal does to the two slots. */
  lemma SignalSlots(cfg: Config, room: Room, role: Role, seqNo: int, data: string, now: int)
    ensures var me, you, s := room.At(role), room.At(role.Other()), Signal(role, room.At(role).epoch, seqNo, data, now);
            var room' := SignalIn(cfg, room, role, seqNo, data, now).0;
            var mine, yours := room'.At(role), room'.At(role.Other());
            && mine.buffer == me.buffer && mine.bufferBytes == me.bufferBytes
            && (if seqNo > me.lastSeq && you.conn.None? && !Overflows(cfg, you, data)
                then yours == you.(buffer := you.buffer + [s], bufferBytes := you.bufferBytes + |data|)
                else || (yours.buffer == you.buffer && yours.bufferBytes == you.bufferBytes)
                     || (yours.buffer == [] && yours.bufferBytes == 0))
  {
  }

  /** And the rest of the room stays. */
  lemma SignalSame(cfg: Config, room: Room, role: Role, seqNo: int, data: string, now: int)
    ensures var room' := SignalIn(cfg, room, role, seqNo, data, now).0;
            && SameRoom(room, room') && room'.peerDeadlineAt == room.peerDeadlineAt
            && (EpochsFit(room) ==> EpochsFit(room'))
  {
  }

  lemma SignalKeepsRoom(cfg: Config, room: Room, role: Role, seqNo: int, data: string, now: int)
    requires RoomOk(cfg, room)
    ensures var room' := SignalIn(cfg, room, role, seqNo, data, now).0;
            RoomOk(cfg, room') && SameRoom(room, room')
  {
    hide Accounted, SignalIn, EpochsFit;
    HalvesAccounted(cfg, room, role);
    var me, you, s := room.At(role), room.At(role.Other()), Signal(role, room.At(role).epoch, seqNo, data, now);
    var room' := SignalIn(cfg, room, role, seqNo, data, now).0;
    SignalSlots(cfg, room, role, seqNo, data, now);
    SignalSame(cfg, room, role, seqNo, data, now);
    SameBuffer(cfg, me, room'.At(role), role.Other());
    if seqNo > me.lastSeq && you.conn.None? && !Overflows(cfg, you, data) {
      MoreBuffer(cfg, you, role, s);
    } else {
      SameBuffer(cfg, you, room'.At(role.Other()), role);
    }
    HalvesAccounted(cfg, room', role);
  }

  lemma NothingCounts()
    ensures Bytes([]) == 0
  {
  }

  lemma ReportKeepsRoom(cfg: Config, room: Room, role: Role, now: int)
    requires RoomOk(cfg, room)
    ensures RoomOk(cfg, ReportIn(cfg, room, role, now)) && SameRoom(room, ReportIn(cfg, room, role, now))
  {
    hide Bytes;
  }

  lemma ClearKeepsRoom(cfg: Config, room: Room, msg: Msg)
    requires RoomOk(cfg, room)
    ensures RoomOk(cfg, ClearIn(room, msg)) && SameRoom(room, ClearIn(room, msg))
  {
    hide Bytes;
  }

  lemma LeaveKeepsRoom(cfg: Config, room: Room, role: Role, c: Conn, now: int)
    requires RoomOk(cfg, room)
    ensures var room' := LeaveIn(cfg, room, role, c, now).0;
            RoomOk(cfg, room') && SameRoom(room, room')
  {
    hide Bytes;
  }

  lemma LeaveSame(cfg: Config, room: Room, role: Role, c: Conn, now: int)
    ensures LeaveIn(cfg, room, role, c, now).0.roomID == room.roomID
  {
  }

  // ---------------------------------------------------------------- peer deadlines

  /** The deadline that the design describes: set while exactly one side is there. */
  ghost predicate DeadlineFits(room: Room) {
    room.peerDeadlineAt.Some? <==> (room.host.conn.Some? <==> room.guest.conn.None?)
  }

  /** A join clears the deadline even if the host is away. */
  lemma DeadlineAfterJoin(room: Room, c: Conn, epoch: string)
    ensures DeadlineFits(JoinIn(room, c, epoch)) <==> room.host.conn.Some?
  {
  }

  lemma DeadlineAfterRejoin(cfg: Config, room: Room, role: Role, c: Conn, epoch: string, recreated: bool, now: int)
    ensures DeadlineFits(RejoinIn(cfg, room, role, c, epoch, recreated, now))
  {
  }

  /** A replaced session that leaves sets a deadline although both sides may be there, and the last
      one to leave sets one for nobody. */
  lemma DeadlineAfterLeave(cfg: Config, room: Room, role: Role, c: Conn, now: int)
    requires !LeaveIn(cfg, room, role, c, now).1
    ensures var replaced := room.At(role).conn.Some? && room.At(role).conn != Some(c);
            DeadlineFits(LeaveIn(cfg, room, role, c, now).0) <==>
              (room.At(role.Other()).conn.Some? <==> !replaced)
  {
  }

  // ---------------------------------------------------------------- delivery order

  predicate SameStream(a: Signal, b: Signal) {
    a.fromRole == b.fromRole && a.fromEpoch == b.fromEpoch
  }

  /** Sequence numbers rise along each stream. */
  ghost predicate Rising(log: seq<Msg>) {
    forall i, j :: 0 <= i < j < |log| && log[i].Heard? && log[j].Heard? && SameStream(log[i].signal, log[j].signal) ==>
      log[i].signal.seqNo < log[j].signal.seqNo
  }

  /** What was heard from role under this epoch goes up to n at most. */
  ghost predicate Counted(log: seq<Msg>, role: Role, epoch: string, n: int) {
    forall i :: 0 <= i < |log| && log[i].Heard? && log[i].signal.fromRole == role ==>
      log[i].signal.fromEpoch == epoch ==> log[i].signal.seqNo <= n
  }

  /** Nothing was heard from role under this epoch. */
  ghost predicate Unused(log: seq<Msg>, role: Role, epoch: string) {
    forall i :: 0 <= i < |log| && log[i].Heard? && log[i].signal.fromRole == role ==> log[i].signal.fromEpoch != epoch
  }

  /** All of it came from role, and the sender has counted what came under its present epoch. */
  ghost predicate Covered(log: seq<Msg>, role: Role, sender: Slot) {
    && (forall i :: 0 <= i < |log| && log[i].Heard? ==> log[i].signal.fromRole == role && log[i].signal.seqNo > 0)
    && Counted(log, role, sender.epoch, sender.lastSeq)
  }

  /** The buffer can still be replayed: only a host that was never there comes under a new epoch for
      certain, since the guest of an empty slot joins and keeps what is buffered. */
  predicate Replayable(slot: Slot, role: Role) {
    role.Guest? || slot.epoch != ""
  }

  /** What me has heard and may be replayed from role, whose slot is you, leaves room for more. */
  ghost predicate Hears(me: Slot, role: Role, you: Slot) {
    && you.lastSeq >= 0 && Rising(me.log)
    && (me.conn.Some? ==> Covered(me.log, role, you))
    && (Replayable(me, role.Other()) ==> Rising(Replayed(me.buffer)) && Covered(Replayed(me.buffer), role, you))
  }

  ghost predicate InOrder(room: Room) {
    Hears(room.host, Guest, room.guest) && Hears(room.guest, Host, room.host)
  }

  lemma HalvesInOrder(room: Room, role: Role)
    ensures InOrder(room) <==>
              && Hears(room.At(role), role.Other(), room.At(role.Other()))
              && Hears(room.At(role.Other()), role, room.At(role))
  {
  }

  /** Events that carry no signal do not matter. */
  lemma EventsDoNotMatter(me: Slot, msg: Msg, role: Role, you: Slot)
    requires Hears(me, role, you) && !msg.Heard?
    ensures Hears(Send(me, msg), role, you) && Hears(Vacate(me, msg), role, you)
  {
    if me.conn.Some? {
      QuietLast(me.log, msg);
    }
  }

  lemma QuietLast(log: seq<Msg>, msg: Msg)
    requires Rising(log) && !msg.Heard?
    ensures Rising(log + [msg])
    ensures forall role, you :: Covered(log, role, you) ==> Covered(log + [msg], role, you)
  {
  }

  lemma OneMore(log: seq<Msg>, role: Role, you: Slot, s: Signal)
    requires Rising(log) && Covered(log, role, you) && you.lastSeq >= 0
    requires s.fromRole == role && s.fromEpoch == you.epoch && s.seqNo > you.lastSeq
    ensures Rising(log + [Heard(s)]) && Covered(log + [Heard(s)], role, you.(lastSeq := s.seqNo))
  {
  }

  lemma NothingRises()
    ensures Rising([]) && forall role, you :: Covered([], role, you)
  {
  }

  /** A join keeps the guest's number, so nothing heard or replayable may be beyond it. */
  ghost predicate JoinFresh(room: Room, epoch: string) {
    && (room.host.conn.Some? ==> Counted(room.host.log, Guest, epoch, room.guest.lastSeq))
    && (Replayable(room.host, Host) ==> Counted(Replayed(room.host.buffer), Guest, epoch, room.guest.lastSeq))
  }

  /** A rejoin under a new epoch starts counting again. It also empties the buffer of a peer that is
      there, so then only what the peer has heard matters; of one that is away, only the buffer. */
  ghost predicate RejoinFresh(room: Room, role: Role, epoch: string, recreated: bool) {
    var you := room.At(role.Other());
    if epoch == room.At(role).epoch && !recreated then true
    else if you.conn.Some? then Unused(you.log, role, epoch)
    else Replayable(you, role.Other()) ==> Unused(Replayed(you.buffer), role, epoch)
  }

  lemma JoinOrderExactly(room: Room, c: Conn, epoch: string)
    requires InOrder(room)
    ensures InOrder(JoinIn(room, c, epoch)) <==> JoinFresh(room, epoch)
  {
    hide Rising, Counted;
    NothingRises();
    var guest := room.guest.(conn := Some(c), epoch := epoch, log := []);
    if room.host.conn.Some? {
      QuietLast(room.host.log, GuestJoined(epoch));
      QuietCounts(room.host.log, GuestJoined(epoch));
    }
  }

  lemma QuietCounts(log: seq<Msg>, msg: Msg)
    requires !msg.Heard?
    ensures forall role, epoch, n :: Counted(log + [msg], role, epoch, n) <==> Counted(log, role, epoch, n)
  {
    forall role, epoch, n
      ensures Counted(log + [msg], role, epoch, n) <==> Counted(log, role, epoch, n)
    {
      assert forall i :: 0 <= i < |log| ==> (log + [msg])[i] == log[i];
    }
  }

  /** Numbers start at one: what may be counted up to zero has not been used. */
  lemma UnusedIsCounted(log: seq<Msg>, role: Role, epoch: string, sender: Slot)
    requires Covered(log, role, sender)
    ensures Counted(log, role, epoch, 0) <==> Unused(log, role, epoch)
  {
  }

  /** The side that attaches: its buffer is replayed, or it starts empty. */
  lemma AttachedHears(me: Slot, role: Role, you: Slot, you': Slot, c: Conn, epoch: string, recreated: bool)
    requires Hears(me, role, you) && epoch != ""
    requires you'.epoch == you.epoch
    requires if epoch == me.epoch && !recreated then you'.lastSeq == you.lastSeq else you'.lastSeq >= 0
    ensures var changed := recreated || me.epoch != epoch;
            Hears((if changed then Reset(me) else me).(conn := Some(c), epoch := epoch,
                                                       log := if changed then [] else Replayed(me.buffer)),
                  role, you')
  {
    hide Rising, Counted;
    NothingRises();
    assert Replayed([]) == [];
  }

  /** The side that stays, when the other's number goes back to zero under another epoch. */
  lemma StayingHearsExactly(me: Slot, role: Role, you: Slot, you': Slot, msg: Msg)
    requires Hears(me, role, you) && you'.lastSeq == 0 && !msg.Heard?
    ensures me.conn.Some? ==> (Hears(Send(Reset(me), msg), role, you') <==> Unused(me.log, role, you'.epoch))
    ensures me.conn.None? ==>
              (Hears(me, role, you') <==>
                (Replayable(me, role.Other()) ==> Unused(Replayed(me.buffer), role, you'.epoch)))
  {
    hide Rising, Counted, Unused;
    NothingRises();
    assert Replayed([]) == [];
    if me.conn.Some? {
      QuietLast(me.log, msg);
      QuietCounts(me.log, msg);
      UnusedIsCounted(me.log, role, you'.epoch, you);
    } else if Replayable(me, role.Other()) {
      UnusedIsCounted(Replayed(me.buffer), role, you'.epoch, you);
    }
  }

  lemma RejoinOrderExactly(cfg: Config, room: Room, role: Role, c: Conn, epoch: string, recreated: bool, now: int)
    requires InOrder(room) && epoch != ""
    ensures InOrder(RejoinIn(cfg, room, role, c, epoch, recreated, now)) <==> RejoinFresh(room, role, epoch, recreated)
  {
    hide Hears, InOrder, Unused;
    HalvesInOrder(room, role);
    var me, you := room.At(role), room.At(role.Other());
    var room' := RejoinIn(cfg, room, role, c, epoch, recreated, now);
    var mine, yours := room'.At(role), room'.At(role.Other());
    NumbersStart(you, role, me);
    NumbersStart(me, role.Other(), you);
    AttachedHears(me, role.Other(), you, yours, c, epoch, recreated);
    if epoch == me.epoch && !recreated {
      EventsDoNotMatter(you, PeerRejoined(role, epoch), role, me);
      SameHearing(yours, yours, role, me, mine);
    } else {
      StayingHearsExactly(you, role, me, mine, PeerReset(role, epoch));
    }
    HalvesInOrder(room', role);
  }

  lemma NumbersStart(me: Slot, role: Role, you: Slot)
    requires Hears(me, role, you)
    ensures you.lastSeq >= 0
  {
  }

  /** The listener has heard, or may be replayed, numbers that the sender has yet to reach. */
  ghost predicate Uncounted(room: Room, role: Role) {
    var me, you := room.At(role), room.At(role.Other());
    && me.lastSeq >= 0
    && if you.conn.Some? && !Counted(you.log, role, me.epoch, me.lastSeq) then true
       else Replayable(you, role.Other()) && !Counted(Replayed(you.buffer), role, me.epoch, me.lastSeq)
  }

  /** A join that is not fresh leaves such numbers. */
  lemma JoinLeavesUncounted(room: Room, c: Conn, epoch: string)
    requires InOrder(room) && !JoinFresh(room, epoch)
    ensures Uncounted(JoinIn(room, c, epoch), Guest)
  {
    hide Rising, Counted;
    QuietCounts(room.host.log, GuestJoined(epoch));
  }

  /** So does a rejoin, and then a peer that is there has heard them. */
  lemma RejoinLeavesUncounted(cfg: Config, room: Room, role: Role, c: Conn, epoch: string, recreated: bool, now: int)
    requires InOrder(room) && !RejoinFresh(room, role, epoch, recreated)
    ensures var room' := RejoinIn(cfg, room, role, c, epoch, recreated, now);
            && Uncounted(room', role)
            && (room'.At(role.Other()).conn.Some? ==>
                  !Counted(room'.At(role.Other()).log, role, epoch, room'.At(role).lastSeq))
  {
    hide Rising, Counted, Unused, InOrder;
    HalvesInOrder(room, role);
    var me, you := room.At(role), room.At(role.Other());
    if you.conn.Some? {
      UnusedIsCounted(you.log, role, epoch, me);
      QuietCounts(you.log, PeerReset(role, epoch));
    } else {
      UnusedIsCounted(Replayed(you.buffer), role, epoch, me);
    }
  }

  /** What is heard although the sender has not counted it is soon followed by a lower number. */
  lemma UncountedIsHeard(cfg: Config, room: Room, role: Role, data: string, now: int)
    requires room.At(role.Other()).conn.Some?
    requires !Counted(room.At(role.Other()).log, role, room.At(role).epoch, room.At(role).lastSeq)
    ensures var room' := SignalIn(cfg, room, role, room.At(role).lastSeq + 1, data, now).0;
            !Rising(room'.At(role.Other()).log)
  {
    var me, you := room.At(role), room.At(role.Other());
    var i :| 0 <= i < |you.log| && you.log[i].Heard? && you.log[i].signal.fromRole == role
             && you.log[i].signal.fromEpoch == me.epoch && you.log[i].signal.seqNo > me.lastSeq;
    var log := SignalIn(cfg, room, role, me.lastSeq + 1, data, now).0.At(role.Other()).log;
    assert log[i] == you.log[i] && log[|you.log|].Heard? && SameStream(log[i].signal, log[|you.log|].signal);
  }

  /** Hearing depends on these fields alone. */
  lemma SameHearing(me: Slot, me': Slot, role: Role, you: Slot, you': Slot)
    requires Hears(me, role, you)
    requires me'.log == me.log && me'.buffer == me.buffer && me'.epoch == me.epoch
    requires me'.conn == me.conn || me'.conn.None?
    requires you'.epoch == you.epoch && you'.lastSeq == you.lastSeq
    ensures Hears(me', role, you')
  {
    hide Rising, Counted;
  }

  /** The next signal of the sender, relayed to a listener that is there, or buffered, or one too many. */
  lemma SignalHeard(me: Slot, role: Role, you: Slot, s: Signal, bytes: int, reset: bool)
    requires Hears(me, role, you)
    requires s.fromRole == role && s.fromEpoch == you.epoch && s.seqNo > you.lastSeq
    ensures me.conn.Some? ==> Hears(Send(me, Heard(s)), role, you.(lastSeq := s.seqNo))
    ensures me.conn.None? ==>
              && Hears(me.(buffer := me.buffer + [s], bufferBytes := bytes), role, you.(lastSeq := s.seqNo))
              && Hears(me.(buffer := [], bufferBytes := bytes, overflowReset := reset), role, you.(lastSeq := s.seqNo))
  {
    hide Rising;
    NothingRises();
    assert Replayed([]) == [];
    assert Replayed(me.buffer + [s]) == Replayed(me.buffer) + [Heard(s)];
    if Replayable(me, role.Other()) {
      OneMore(Replayed(me.buffer), role, you, s);
    }
    if me.conn.Some? {
      OneMore(me.log, role, you, s);
    }
  }

  lemma SignalKeepsOrder(cfg: Config, room: Room, role: Role, seqNo: int, data: string, now: int)
    requires InOrder(room)
    ensures InOrder(SignalIn(cfg, room, role, seqNo, data, now).0)
  {
    hide Hears, InOrder;
    HalvesInOrder(room, role);
    var me, you := room.At(role), room.At(role.Other());
    if seqNo > me.lastSeq {
      var s := Signal(role, me.epoch, seqNo, data, now);
      var room' := SignalIn(cfg, room, role, seqNo, data, now).0;
      SignalHeard(you, role, me, s, you.bufferBytes + |data|, true);
      SignalHeard(you, role, me, s, 0, true);
      SameHearing(me, me.(lastSeq := seqNo), role.Other(), you, room'.At(role.Other()));
      HalvesInOrder(room', role);
    }
  }

  lemma ReportKeepsOrder(cfg: Config, room: Room, role: Role, now: int)
    requires InOrder(room)
    ensures InOrder(ReportIn(cfg, room, role, now))
  {
    hide Rising;
  }

  lemma ClearKeepsOrder(room: Room, msg: Msg)
    requires InOrder(room) && !msg.Heard?
    ensures InOrder(ClearIn(room, msg))
  {
    hide Rising;
    EventsDoNotMatter(room.host, msg, Guest, room.guest);
    EventsDoNotMatter(room.guest, msg, Host, room.host);
  }

  lemma LeaveKeepsOrder(cfg: Config, room: Room, role: Role, c: Conn, now: int)
    requires InOrder(room)
    ensures InOrder(LeaveIn(cfg, room, role, c, now).0)
  {
    hide Hears, InOrder;
    HalvesInOrder(room, role);
    var me, you := room.At(role), room.At(role.Other());
    var room' := LeaveIn(cfg, room, role, c, now).0;
    EventsDoNotMatter(you, PeerDisconnected(role), role, me);
    SameHearing(room'.At(role.Other()), room'.At(role.Other()), role, me, room'.At(role));
    SameHearing(me, room'.At(role), role.Other(), you, room'.At(role.Other()));
    HalvesInOrder(room', role);
  }

  // ---------------------------------------------------------------- snapshots

  /** A snapshot and back keeps everything but the connections and the pending release. */
  lemma RoundTrip(room: Room)
    ensures Unmarshal(Marshal(room)) ==
              Some(room.(releaseAt := None, host := room.host.(conn := None, log := []),
                         guest := room.guest.(conn := None, log := [])))
  {
  }

  lemma SnapshotKeepsRoom(cfg: Config, room: Room)
    requires RoomOk(cfg, room)
    ensures var copy := Unmarshal(Marshal(room)).value;
            RoomOk(cfg, copy) && SameRoom(room, copy) && (InOrder(room) ==> InOrder(copy))
  {
    hide Rising, Bytes;
    NothingRises();
  }

  lemma RevivedKeepsRoom(cfg: Config, s: RoomSnapshot, now: int)
    requires Revived(cfg, s, now).Some? && (Unmarshal(s).Some? ==> RoomOk(cfg, Unmarshal(s).value))
    ensures Unmarshal(s).Some?
    ensures var copy, room := Unmarshal(s).value, Revived(cfg, s, now).value;
            && RoomOk(cfg, room) && SameRoom(copy, room) && (InOrder(copy) ==> InOrder(room))
            && room.host.conn.None? && room.guest.conn.None?
            && room.peerDeadlineAt == Some(PeerDeadline(cfg, now, room.expiresAt)) && now < room.expiresAt
  {
    hide Rising, Bytes, Counted;
  }
}
