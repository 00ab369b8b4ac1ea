/** The room registry as a state machine. Every handler is one step on the memory of the process;
    rooms live in a store and are referred to by their place in it, so that a session can go on
    pointing at a room that is no longer registered, as it can in the server. */
module RoomModel {
  import opened Options
  import opened LruSpec
  import opened Tombstone

  type Conn = nat

  type Positive = n: nat | n > 0 witness 1

  /** Times are nanoseconds; tokens carry whole seconds. */
  const SECOND: int := 1_000_000_000
  const MAX_EPOCH_LEN: nat := 64
  const MAX_RETRIES: nat := 5
  const SCHEMA_VERSION: int := 1

  datatype Config = Config(
    maxRoomsGlobal: int,
    maxBufferedSignals: Positive,
    maxBufferedSignalBytes: Positive,
    maxPasswordAttempts: Positive,
    turnstile: bool,
    releaseSockets: bool,
    roomMaxLifetime: int,
    rejoinTokenTtl: int,
    peerDeadline: int,
    peerConnectedGrace: int,
    tombstoneTtl: int,
    tombstoneCapacity: Positive)

  datatype Role = Host | Guest {
    function Other(): Role {
      if Host? then Guest else Host
    }
  }

  datatype Signal = Signal(fromRole: Role, fromEpoch: string, seqNo: int, data: string, receivedAt: int)

  /** What a connection is sent while it holds a slot. */
  datatype Msg =
    | Heard(signal: Signal)
    | GuestJoined(guestEpoch: string)
    | PeerReset(resetRole: Role, resetEpoch: string)
    | PeerRejoined(rejoinedRole: Role, rejoinedEpoch: string)
    | PeerDisconnected(goneRole: Role)
    | RoomClosedMsg(reason: Reason)
    | RoomExpiredMsg
    | RoomIdleClose
    | ServerShutdown

  datatype CloseCode = Replaced | ClosedRoom | ExpiredRoom | PeersConnected | ShuttingDown

  /** log is everything sent to the slot's connection since it attached. */
  datatype Slot = Slot(
    conn: Option<Conn>,
    epoch: string,
    reportedConnected: bool,
    lastSeq: int,
    buffer: seq<Signal>,
    bufferBytes: int,
    overflowReset: bool,
    log: seq<Msg>)

  const EMPTY_SLOT: Slot := Slot(None, "", false, 0, [], 0, false, [])

  /** origin is when the first room of this lineage was created; the server does not keep it. */
  datatype Room = Room(
    roomID: string,
    createdAt: int,
    instantiatedAt: int,
    expiresAt: int,
    peerDeadlineAt: Option<int>,
    releaseAt: Option<int>,
    password: Option<string>,
    passwordAttempts: int,
    ownerIP: string,
    host: Slot,
    guest: Slot,
    origin: int)
  {
    function At(role: Role): Slot {
      if role.Host? then host else guest
    }

    function Put(role: Role, slot: Slot): Room {
      if role.Host? then this.(host := slot) else this.(guest := slot)
    }
  }

  /** A verified rejoin token. origin is the creation its lineage goes back to, as in a room. */
  datatype Token = Token(roomID: string, role: Role, createdAt: int, password: Option<string>, origin: int)

  predicate TokenExpired(t: Token, now: int, ttl: int) {
    now - t.createdAt * SECOND > ttl
  }

  function TokenFor(room: Room, role: Role): Token {
    Token(room.roomID, role, room.createdAt / SECOND, room.password, room.origin)
  }

  // ---------------------------------------------------------------- one room

  function ExpiresAt(cfg: Config, instantiatedAt: int, createdAt: int): int {
    var a, b := instantiatedAt + cfg.roomMaxLifetime, createdAt + cfg.rejoinTokenTtl;
    if b < a then b else a
  }

  function PeerDeadline(cfg: Config, now: int, expiresAt: int): int {
    var a := now + cfg.peerDeadline;
    if expiresAt < a then expiresAt else a
  }

  function NewRoom(cfg: Config, id: string, now: int, createdAt: int, password: Option<string>,
                   ip: string, origin: int): Room {
    var expiresAt := ExpiresAt(cfg, now, createdAt);
    Room(id, createdAt, now, expiresAt, Some(PeerDeadline(cfg, now, expiresAt)), None,
         password, 0, ip, EMPTY_SLOT, EMPTY_SLOT, origin)
  }

  function Send(slot: Slot, msg: Msg): Slot {
    if slot.conn.Some? then slot.(log := slot.log + [msg]) else slot
  }

  function Reset(slot: Slot): Slot {
    slot.(buffer := [], bufferBytes := 0, lastSeq := 0, reportedConnected := false, overflowReset := false)
  }

  function Replayed(buffer: seq<Signal>): (log: seq<Msg>)
    ensures |log| == |buffer| && forall i :: 0 <= i < |log| ==> log[i] == Heard(buffer[i])
  {
    seq(|buffer|, i requires 0 <= i < |buffer| => Heard(buffer[i]))
  }

  function HostIn(room: Room, c: Conn, epoch: string): Room {
    room.(host := room.host.(conn := Some(c), epoch := epoch))
  }

  /** Joining keeps the guest slot's last sequence number and buffer, and replays nothing. */
  function JoinIn(room: Room, c: Conn, epoch: string): Room {
    room.(guest := room.guest.(conn := Some(c), epoch := epoch, log := []),
          host := Send(room.host, GuestJoined(epoch)),
          peerDeadlineAt := None)
  }

  function RejoinIn(cfg: Config, room: Room, role: Role, c: Conn, epoch: string, recreated: bool, now: int): Room {
    var me, you := room.At(role), room.At(role.Other());
    var changed := recreated || me.epoch != epoch;
    var mine := (if changed then Reset(me) else me).(conn := Some(c), epoch := epoch,
                                                     log := if changed then [] else Replayed(me.buffer));
    var yours := if you.conn.None? then you
                 else if changed then Send(Reset(you), PeerReset(role, epoch))
                 else Send(you, PeerRejoined(role, epoch));
    room.Put(role, mine).Put(role.Other(), yours)
    .(peerDeadlineAt := if you.conn.None? then Some(PeerDeadline(cfg, now, room.expiresAt)) else None)
  }

  predicate Overflows(cfg: Config, slot: Slot, data: string) {
    |slot.buffer| >= cfg.maxBufferedSignals || slot.bufferBytes + |data| > cfg.maxBufferedSignalBytes
  }

  /** A signal from role: ignored, relayed, buffered for an absent peer, or one too many. */
  function SignalIn(cfg: Config, room: Room, role: Role, seqNo: int, data: string, now: int): (Room, bool) {
    var me, you := room.At(role), room.At(role.Other());
    if seqNo <= me.lastSeq then (room, false)
    else
      var s := Signal(role, me.epoch, seqNo, data, now);
      var room' := room.Put(role, me.(lastSeq := seqNo));
      if you.conn.Some? then (room'.Put(role.Other(), Send(you, Heard(s))), false)
      else if Overflows(cfg, you, data) then
        (room'.Put(role.Other(), you.(buffer := [], bufferBytes := 0, overflowReset := true)), true)
      else
        (room'.Put(role.Other(), you.(buffer := you.buffer + [s], bufferBytes := you.bufferBytes + |data|)), false)
  }

  function ReportIn(cfg: Config, room: Room, role: Role, now: int): Room {
    if room.At(role).reportedConnected then room
    else
      var room' := room.Put(role, room.At(role).(reportedConnected := true));
      if room.At(role.Other()).reportedConnected && cfg.releaseSockets
      then room'.(releaseAt := Some(now + cfg.peerConnectedGrace))
      else room'
  }

  function Vacate(slot: Slot, msg: Msg): Slot {
    Send(slot, msg).(conn := None)
  }

  /** Tells both connections and lets go of them. */
  function ClearIn(room: Room, msg: Msg): Room {
    room.(host := Vacate(room.host, msg), guest := Vacate(room.guest, msg))
  }

  /** The connection of role c is gone; the flag says that nobody can ever come back. */
  function LeaveIn(cfg: Config, room: Room, role: Role, c: Conn, now: int): (Room, bool) {
    var me, you := room.At(role), room.At(role.Other());
    var room' := room.Put(role, if me.conn == Some(c) then me.(conn := None) else me);
    var deadline := Some(PeerDeadline(cfg, now, room.expiresAt));
    if you.conn.Some? then
      (room'.Put(role.Other(), Send(you, PeerDisconnected(role))).(peerDeadlineAt := deadline), false)
    else if room.host.epoch == "" && room.guest.epoch == "" then (room', true)
    else (room'.(peerDeadlineAt := deadline), false)
  }

  /** Why a sweep at now ends a room, if it does: the grace period comes first. */
  function DueFor(room: Room, now: int): Option<(Msg, CloseCode)> {
    if room.releaseAt.Some? && now >= room.releaseAt.value then Some((RoomIdleClose, PeersConnected))
    else if now >= room.expiresAt then Some((RoomExpiredMsg, ExpiredRoom))
    else if room.peerDeadlineAt.Some? && now >= room.peerDeadlineAt.value then Some((RoomExpiredMsg, ExpiredRoom))
    else None
  }

  // ---------------------------------------------------------------- snapshots

  datatype SlotSnapshot = SlotSnapshot(epoch: string, reportedConnected: bool, lastSeq: int,
                                       buffer: seq<Signal>, bufferBytes: int, overflowReset: bool)

  /** What a file holds; Unreadable stands for anything that is no snapshot at all. */
  datatype RoomSnapshot = Unreadable | RoomSnapshot(
    version: int, roomID: string, createdAt: int, instantiatedAt: int, expiresAt: int,
    peerDeadlineAt: Option<int>, password: Option<string>, passwordAttempts: int, ownerIP: string,
    host: SlotSnapshot, guest: SlotSnapshot, origin: int)

  function MarshalSlot(s: Slot): SlotSnapshot {
    SlotSnapshot(s.epoch, s.reportedConnected, s.lastSeq, s.buffer, s.bufferBytes, s.overflowReset)
  }

  function UnmarshalSlot(s: SlotSnapshot): Slot {
    Slot(None, s.epoch, s.reportedConnected, s.lastSeq, s.buffer, s.bufferBytes, s.overflowReset, [])
  }

  function Marshal(r: Room): RoomSnapshot {
    RoomSnapshot(SCHEMA_VERSION, r.roomID, r.createdAt, r.instantiatedAt, r.expiresAt, r.peerDeadlineAt,
                 r.password, r.passwordAttempts, r.ownerIP, MarshalSlot(r.host), MarshalSlot(r.guest), r.origin)
  }

  function Unmarshal(s: RoomSnapshot): Option<Room> {
    if s.Unreadable? || s.version != SCHEMA_VERSION then None
    else Some(Room(s.roomID, s.createdAt, s.instantiatedAt, s.expiresAt, s.peerDeadlineAt, None,
                   s.password, s.passwordAttempts, s.ownerIP, UnmarshalSlot(s.host), UnmarshalSlot(s.guest), s.origin))
  }

  // ---------------------------------------------------------------- the registry

  datatype Attached = Attached(ref: nat, role: Role)

  /** The memory of the process. sessions holds the attached ones; closing holds the connections the
      server has closed since they attached. */
  datatype State = State(
    heap: seq<Room>,
    rooms: map<string, nat>,
    sessions: map<Conn, Attached>,
    closing: map<Conn, CloseCode>,
    roomsGlobal: int,
    tomb: seq<(string, Entry)>)

  const EMPTY_STATE: State := State([], map[], map[], map[], 0, [])

  datatype ErrorCode =
    | UnexpectedState | MalformedMessage | TurnstileRequired | TurnstileInvalid | RateLimited
    | ServerAtCapacity | RoomClosed | RoomNotFound | RoomFull | InvalidGuestPassword
    | TooManyPasswordAttempts | InvalidRejoinToken | RoomExpired | SignalBufferOverflow

  datatype Reply =
    | Silent
    | Refused(code: ErrorCode)
    | Fatal(fatalCode: ErrorCode, close: CloseCode)
    | Created(roomID: string, token: Token, peerDeadlineAt: int, expiresAt: int)
    | Joined(token: Token, hostConnected: bool, hostEpoch: string, expiresAt: int)
    | Rejoined(recreated: bool, peerConnected: bool, hostEpoch: string, guestEpoch: string,
               expiresAt: int, deadline: Option<int>)

  /** What the handler is given or finds out from outside the registry. */
  datatype CreateRequest = CreateRequest(ip: string, epoch: string, password: string, turnstileToken: bool,
                                         turnstileOK: bool, rateOK: bool, ipOK: bool, turnOK: bool,
                                         candidates: seq<string>)

  /** id is None when the requested id is malformed or belongs to another shard. */
  datatype JoinRequest = JoinRequest(id: Option<string>, epoch: string, password: string, turnOK: bool)

  datatype Credential = Missing | Unverified | Verified(token: Token)

  datatype RejoinRequest = RejoinRequest(ip: string, credential: Credential, epoch: string,
                                         rateOK: bool, ipOK: bool, turnOK: bool)

  predicate BadEpoch(epoch: string) {
    epoch == "" || |epoch| > MAX_EPOCH_LEN
  }

  function OptionalPassword(password: string): Option<string> {
    if password == "" then None else Some(password)
  }

  /** References that lead somewhere. */
  ghost predicate Linked(st: State) {
    && (forall id :: id in st.rooms ==> st.rooms[id] < |st.heap|)
    && (forall c :: c in st.sessions ==> st.sessions[c].ref < |st.heap|)
  }

  /** The first few candidates, one after the other, until one names neither a room nor a tombstone. */
  function Generate(rooms: set<string>, tomb: seq<(string, Entry)>, candidates: seq<string>, now: int, ttl: int)
    : (seq<(string, Entry)>, Option<string>)
    decreases |candidates|
  {
    if candidates == [] then (tomb, None)
    else if candidates[0] in rooms then Generate(rooms, tomb, candidates[1..], now, ttl)
    else
      var (asked, found) := Ask(tomb, candidates[0], now, ttl);
      if found.None? then (asked, Some(candidates[0]))
      else Generate(rooms, asked, candidates[1..], now, ttl)
  }

  function FirstTries(candidates: seq<string>): seq<string> {
    if |candidates| > MAX_RETRIES then candidates[..MAX_RETRIES] else candidates
  }

  function AttachNew(st: State, c: Conn, role: Role, room: Room): State {
    st.(heap := st.heap + [room],
        rooms := st.rooms[room.roomID := |st.heap|],
        sessions := st.sessions[c := Attached(|st.heap|, role)],
        closing := st.closing - {c},
        roomsGlobal := st.roomsGlobal + 1)
  }

  function WithClosing(closing: map<Conn, CloseCode>, slot: Slot, code: CloseCode): map<Conn, CloseCode> {
    match slot.conn
    case None => closing
    case Some(c) => closing[c := code]
  }

  /** c takes the slot; whoever held it is closed. */
  function AttachAt(st: State, c: Conn, ref: nat, role: Role, room: Room): State
    requires ref < |st.heap|
  {
    st.(heap := st.heap[ref := room],
        sessions := st.sessions[c := Attached(ref, role)],
        closing := WithClosing(st.closing, st.heap[ref].At(role), Replaced) - {c})
  }

  function SetRoom(st: State, ref: nat, room: Room): State
    requires ref < |st.heap|
  {
    st.(heap := st.heap[ref := room])
  }

  function Remove(st: State, id: string): State {
    if id in st.rooms then st.(rooms := st.rooms - {id}, roomsGlobal := st.roomsGlobal - 1) else st
  }

  /** Both connections of a room are told and closed, and its id is no longer registered. */
  function Evict(st: State, ref: nat, msg: Msg, code: CloseCode): State
    requires ref < |st.heap|
  {
    var room := st.heap[ref];
    Remove(SetRoom(st, ref, ClearIn(room, msg))
           .(closing := WithClosing(WithClosing(st.closing, room.host, code), room.guest, code)),
           room.roomID)
  }

  function Bury(cfg: Config, st: State, id: string, reason: Reason, now: int): State {
    st.(tomb := Insert(st.tomb, id, Entry(now, reason), cfg.tombstoneCapacity))
  }

  function CloseAt(cfg: Config, st: State, ref: nat, reason: Reason, now: int): State
    requires ref < |st.heap|
  {
    Evict(Bury(cfg, st, st.heap[ref].roomID, reason, now), ref, RoomClosedMsg(reason), ClosedRoom)
  }

  // ---------------------------------------------------------------- the handlers

  function CreateStep(cfg: Config, st: State, c: Conn, q: CreateRequest, now: int): (State, Reply) {
    if c in st.sessions then (st, Refused(UnexpectedState))
    else if BadEpoch(q.epoch) then (st, Refused(MalformedMessage))
    else if cfg.turnstile && !q.turnstileOK then
      (st, Refused(if q.turnstileToken then TurnstileInvalid else TurnstileRequired))
    else if !q.rateOK || !q.ipOK then (st, Refused(RateLimited))
    else CreateOpenStep(cfg, st, c, q, now)
  }

  /** Creating a room that nothing forbids, if there is a place and an id for it. */
  function CreateOpenStep(cfg: Config, st: State, c: Conn, q: CreateRequest, now: int): (State, Reply) {
    if st.roomsGlobal >= cfg.maxRoomsGlobal then (st, Refused(ServerAtCapacity))
    else
      var (tomb, id) := Generate(st.rooms.Keys, st.tomb, FirstTries(q.candidates), now, cfg.tombstoneTtl);
      if id.None? || !q.turnOK then (st.(tomb := tomb), Refused(ServerAtCapacity))
      else
        var empty := NewRoom(cfg, id.value, now, now, OptionalPassword(q.password), q.ip, now);
        var room := HostIn(empty, c, q.epoch);
        (AttachNew(st.(tomb := tomb), c, Host, room),
         Created(id.value, TokenFor(room, Host), room.peerDeadlineAt.value, room.expiresAt))
  }

  function JoinStep(cfg: Config, st: State, c: Conn, q: JoinRequest, now: int): (State, Reply)
    requires Linked(st)
  {
    if c in st.sessions then (st, Refused(UnexpectedState))
    else if q.id.None? || BadEpoch(q.epoch) then (st, Refused(MalformedMessage))
    else
      var (tomb, found) := Ask(st.tomb, q.id.value, now, cfg.tombstoneTtl);
      var asked := st.(tomb := tomb);
      if found.Some? then (asked, Refused(RoomClosed))
      else if q.id.value !in st.rooms then (asked, Refused(RoomNotFound))
      else EnterStep(cfg, asked, c, q, st.rooms[q.id.value], now)
  }

  /** Joining a room that exists. */
  function EnterStep(cfg: Config, st: State, c: Conn, q: JoinRequest, ref: nat, now: int): (State, Reply)
    requires ref < |st.heap|
  {
    var room := st.heap[ref];
    if room.password.Some? && room.password.value != q.password then
      var tried := SetRoom(st, ref, room.(passwordAttempts := room.passwordAttempts + 1));
      if room.passwordAttempts + 1 >= cfg.maxPasswordAttempts then
        (CloseAt(cfg, tried, ref, PasswordLockout, now), Fatal(TooManyPasswordAttempts, ClosedRoom))
      else (tried, Refused(InvalidGuestPassword))
    else if room.guest.conn.Some? then (st, Refused(RoomFull))
    else if !q.turnOK then (st, Refused(ServerAtCapacity))
    else
      (AttachAt(st, c, ref, Guest, JoinIn(room, c, q.epoch)),
       Joined(TokenFor(room, Guest), room.host.conn.Some?, room.host.epoch, room.expiresAt))
  }

  function RejoinReply(room: Room, role: Role, recreated: bool): Reply {
    var alone := room.At(role.Other()).conn.None?;
    Rejoined(recreated, !alone, room.host.epoch, room.guest.epoch, room.expiresAt,
             if alone then room.peerDeadlineAt else None)
  }

  function RejoinStep(cfg: Config, st: State, c: Conn, q: RejoinRequest, now: int): (State, Reply)
    requires Linked(st)
  {
    if c in st.sessions then (st, Refused(UnexpectedState))
    else if q.credential.Missing? then (st, Refused(InvalidRejoinToken))
    else if BadEpoch(q.epoch) then (st, Refused(MalformedMessage))
    else if q.credential.Unverified? then (st, Refused(InvalidRejoinToken))
    else if TokenExpired(q.credential.token, now, cfg.rejoinTokenTtl) then (st, Refused(RoomExpired))
    else
      var t := q.credential.token;
      var (tomb, found) := Ask(st.tomb, t.roomID, now, cfg.tombstoneTtl);
      var asked := st.(tomb := tomb);
      if found.Some? then (asked, Refused(RoomClosed))
      else if !q.rateOK then (asked, Refused(RateLimited))
      else if t.roomID !in st.rooms then RecreateStep(cfg, asked, c, q, t, now)
      else if !q.turnOK then (asked, Refused(ServerAtCapacity))
      else
        var ref := st.rooms[t.roomID];
        var room := RejoinIn(cfg, st.heap[ref], t.role, c, q.epoch, false, now);
        (AttachAt(asked, c, ref, t.role, room), RejoinReply(room, t.role, false))
  }

  /** Rejoining a room that is gone makes it anew from the token. */
  function RecreateStep(cfg: Config, st: State, c: Conn, q: RejoinRequest, t: Token, now: int): (State, Reply) {
    if !q.turnOK then (st, Refused(ServerAtCapacity))
    else if !q.ipOK then (st, Refused(RateLimited))
    else if st.roomsGlobal >= cfg.maxRoomsGlobal then (st, Refused(ServerAtCapacity))
    else
      var empty := NewRoom(cfg, t.roomID, now, t.createdAt * SECOND, t.password, q.ip, t.origin);
      var room := RejoinIn(cfg, empty, t.role, c, q.epoch, true, now);
      (AttachNew(st, c, t.role, room), RejoinReply(room, t.role, true))
  }

  function SignalStep(cfg: Config, st: State, c: Conn, seqNo: int, wellFormed: bool, data: string, now: int)
    : (State, Reply)
    requires Linked(st)
  {
    if c !in st.sessions then (st, Refused(UnexpectedState))
    else if seqNo <= 0 || !wellFormed then (st, Refused(MalformedMessage))
    else
      var a := st.sessions[c];
      var (room, overflow) := SignalIn(cfg, st.heap[a.ref], a.role, seqNo, data, now);
      (SetRoom(st, a.ref, room), if overflow then Refused(SignalBufferOverflow) else Silent)
  }

  function ReportStep(cfg: Config, st: State, c: Conn, now: int): (State, Reply)
    requires Linked(st)
  {
    if c !in st.sessions then (st, Refused(UnexpectedState))
    else
      var a := st.sessions[c];
      (SetRoom(st, a.ref, ReportIn(cfg, st.heap[a.ref], a.role, now)), Silent)
  }

  function CloseStep(cfg: Config, st: State, c: Conn, now: int): (State, Reply)
    requires Linked(st)
  {
    if c !in st.sessions then (st, Refused(UnexpectedState))
    else (CloseAt(cfg, st, st.sessions[c].ref, ClosedByPeer, now), Silent)
  }

  function DetachStep(cfg: Config, st: State, c: Conn, now: int): State
    requires Linked(st)
  {
    if c !in st.sessions then st
    else
      var a := st.sessions[c];
      var (room, gone) := LeaveIn(cfg, st.heap[a.ref], a.role, c, now);
      var left := SetRoom(st, a.ref, room).(sessions := st.sessions - {c});
      if gone then Remove(left, room.roomID) else left
  }

  // ---------------------------------------------------------------- restoring from disk

  type Disk = map<string, RoomSnapshot>

  /** A snapshot worth bringing back at now. */
  function Revived(cfg: Config, s: RoomSnapshot, now: int): Option<Room> {
    match Unmarshal(s)
    case None => None
    case Some(room) =>
      if now >= room.expiresAt then None
      else if room.host.epoch == "" && room.guest.epoch == "" && room.host.buffer == [] && room.guest.buffer == []
      then None
      else Some(room.(peerDeadlineAt := Some(PeerDeadline(cfg, now, room.expiresAt))))
  }

  function AddRestored(st: State, room: Room): State {
    st.(heap := st.heap + [room], rooms := st.rooms[room.roomID := |st.heap|], roomsGlobal := st.roomsGlobal + 1)
  }

  /** Restores the snapshots of the listed ids and deletes those not worth it. */
  function RestoreAll(cfg: Config, st: State, disk: Disk, ids: seq<string>, now: int): (State, Disk)
    decreases |ids|
  {
    if ids == [] then (st, disk)
    else
      var (st', disk') := RestoreAll(cfg, st, disk, ids[..|ids| - 1], now);
      var id := ids[|ids| - 1];
      if id !in disk then (st', disk')
      else
        match Revived(cfg, disk[id], now)
        case None => (st', disk' - {id})
        case Some(room) => (AddRestored(st', room), disk')
  }
}
