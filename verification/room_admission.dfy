/** Who gets into a room, in every run: exactly which creations, joins and rejoins are accepted, what each
    refused join is answered, what wrong passwords lead to, and that what a reply says is so. */
module RoomAdmission {
  import opened Options
  import opened LruSpec
  import opened Tombstone
  import opened RoomModel
  import opened RoomRules
  import opened RoomInvariants
  import opened RoomRuns

  predicate GoodEpoch(epoch: string) {
    0 < |epoch| <= 64
  }

  /** The password a room asks for, if it asks for one. */
  predicate OpensTo(room: Room, given: string) {
    room.password.Some? ==> room.password.value == given
  }

  /** The id has a tombstone that still counts. */
  predicate ClosedFor(st: State, id: string, now: int, ttl: int) {
    var e := Lookup(st.tomb, id);
    e.Some? && now - e.value.closedAt <= ttl
  }

  ghost predicate Reachable(cfg: Config, w: World) {
    exists actions :: w == Run(cfg, actions)
  }

  lemma ReachableIsOk(cfg: Config, w: World)
    requires Reachable(cfg, w)
    ensures WorldOk(cfg, w) && Linked(w.st)
  {
    hide Run, WorldOk;
    var actions :| w == Run(cfg, actions);
    EveryRunIsOk(cfg, actions);
  }

  /** A registered id is not closed, and asking about it finds nothing. */
  lemma AskingFinds(cfg: Config, births: Births, st: State, id: string, now: int)
    requires Inv(cfg, births, st)
    ensures var (tomb, found) := Ask(st.tomb, id, now, cfg.tombstoneTtl);
            && (found.Some? <==> ClosedFor(st, id, now, cfg.tombstoneTtl))
            && (id in st.rooms ==> found.None? && tomb == st.tomb && !ClosedFor(st, id, now, cfg.tombstoneTtl))
  {
    hide Core, Drop, Lookup, DistinctKeys;
    AskForgets(st.tomb, id, now, cfg.tombstoneTtl);
    assert id in st.rooms ==> id in st.rooms.Keys && !Resident(st.tomb, id);
  }

  // ---------------------------------------------------------------- joins

  /** A well-formed join by a connection that has no room yet. */
  predicate Asks(st: State, c: Conn, q: JoinRequest) {
    c !in st.sessions && q.id.Some? && GoodEpoch(q.epoch)
  }

  /** It names a room. */
  predicate Knocks(st: State, c: Conn, q: JoinRequest) {
    Asks(st, c, q) && q.id.value in st.rooms
  }

  ghost predicate Admits(st: State, c: Conn, q: JoinRequest)
    requires Linked(st)
  {
    && Knocks(st, c, q) && q.turnOK
    && var room := st.heap[st.rooms[q.id.value]];
       OpensTo(room, q.password) && room.guest.conn.None?
  }

  /** A join succeeds if and only if the connection has no room yet, the epoch is good, the room is
      registered, nobody is in its guest slot, it is given the room's password if there is one, and there
      are relay credentials. Nothing else keeps anyone out, or lets anyone in. */
  lemma JoinedExactly(cfg: Config, w: World, c: Conn, q: JoinRequest, now: int)
    requires Reachable(cfg, w)
    ensures Linked(w.st)
    ensures JoinStep(cfg, w.st, c, q, now).1.Joined? <==> Admits(w.st, c, q)
  {
    hide Inv, Ask, TokensOk, DiskOk, Reachable, ClosedFor;
    ReachableIsOk(cfg, w);
    if q.id.Some? {
      AskingFinds(cfg, w.births, w.st, q.id.value, now);
    }
  }

  /** And what every other join is answered. */
  lemma JoinAnswers(cfg: Config, w: World, c: Conn, q: JoinRequest, now: int)
    requires Reachable(cfg, w)
    ensures Linked(w.st)
    ensures var reply := JoinStep(cfg, w.st, c, q, now).1;
            if c in w.st.sessions then reply == Refused(UnexpectedState)
            else if !Asks(w.st, c, q) then reply == Refused(MalformedMessage)
            else if ClosedFor(w.st, q.id.value, now, cfg.tombstoneTtl) then reply == Refused(RoomClosed)
            else if !Knocks(w.st, c, q) then reply == Refused(RoomNotFound)
            else
              var room := w.st.heap[w.st.rooms[q.id.value]];
              && (OpensTo(room, q.password) && room.guest.conn.Some? ==> reply == Refused(RoomFull))
              && (OpensTo(room, q.password) && room.guest.conn.None? && !q.turnOK ==>
                    reply == Refused(ServerAtCapacity))
  {
    hide Inv, Ask, TokensOk, DiskOk, Reachable, ClosedFor;
    ReachableIsOk(cfg, w);
    if q.id.Some? {
      AskingFinds(cfg, w.births, w.st, q.id.value, now);
    }
  }

  /** A wrong password is counted once and changes nothing else, until the last one allowed: that one
      closes the room, and its id is buried as locked out. */
  lemma WrongPassword(cfg: Config, w: World, c: Conn, q: JoinRequest, now: int)
    requires Reachable(cfg, w)
    requires Knocks(w.st, c, q)
    ensures Linked(w.st)
    ensures var ref := w.st.rooms[q.id.value];
            var room := w.st.heap[ref];
            var (st', reply) := JoinStep(cfg, w.st, c, q, now);
            !OpensTo(room, q.password) ==>
              if room.passwordAttempts + 1 < cfg.maxPasswordAttempts then
                && reply == Refused(InvalidGuestPassword)
                && st' == w.st.(heap := w.st.heap[ref := room.(passwordAttempts := room.passwordAttempts + 1)])
              else
                && reply == Fatal(TooManyPasswordAttempts, ClosedRoom)
                && q.id.value !in st'.rooms && st'.sessions == w.st.sessions
                && Lookup(st'.tomb, q.id.value) == Some(Entry(now, PasswordLockout))
                && ref < |st'.heap| && st'.heap[ref].host.conn.None? && st'.heap[ref].guest.conn.None?
  {
    hide Inv, Ask, TokensOk, DiskOk, Reachable, ClosedFor, Insert;
    ReachableIsOk(cfg, w);
    AskingFinds(cfg, w.births, w.st, q.id.value, now);
    BuriedAt(cfg, w.births, w.st, q.id.value, Entry(now, PasswordLockout));
    RegisteredAt(cfg, w.births, w.st, q.id.value);
  }

  lemma BuriedAt(cfg: Config, births: Births, st: State, id: string, e: Entry)
    requires Inv(cfg, births, st)
    ensures Lookup(Insert(st.tomb, id, e, cfg.tombstoneCapacity), id) == Some(e)
  {
    hide Core, Lookup, Insert, DistinctKeys;
    BuryMarks(st.tomb, id, e, cfg.tombstoneCapacity);
  }

  lemma RegisteredAt(cfg: Config, births: Births, st: State, id: string)
    requires Inv(cfg, births, st) && id in st.rooms
    ensures st.rooms[id] < |st.heap| && st.heap[st.rooms[id]].roomID == id
  {
    hide Fits, Held, Entombed;
  }

  // ---------------------------------------------------------------- rejoins

  /** A signed token whose time is not up. */
  ghost predicate Holds(cfg: Config, w: World, q: RejoinRequest, now: int) {
    && q.credential.Verified? && q.credential.token in w.tokens
    && now - q.credential.token.createdAt * SECOND <= cfg.rejoinTokenTtl
  }

  ghost predicate Readmits(cfg: Config, w: World, c: Conn, q: RejoinRequest, now: int) {
    && c !in w.st.sessions && GoodEpoch(q.epoch) && Holds(cfg, w, q, now) && q.rateOK && q.turnOK
    && (q.credential.token.roomID in w.st.rooms
        || (&& !ClosedFor(w.st, q.credential.token.roomID, now, cfg.tombstoneTtl)
            && q.ipOK && w.st.roomsGlobal < cfg.maxRoomsGlobal))
  }

  /** A rejoin succeeds if and only if the connection has no room yet, the epoch is good, the token was
      signed here and is in time, no limit stands against it, there are relay credentials, and the room is
      registered, or it is not closed and there is a place for it. It recreates the room exactly if that
      is not registered. */
  lemma RejoinedExactly(cfg: Config, w: World, c: Conn, q: RejoinRequest, now: int)
    requires Reachable(cfg, w)
    ensures Linked(w.st)
    ensures var reply := RejoinStep(cfg, w.st, c, Checked(w.tokens, q), now).1;
            && (reply.Rejoined? <==> Readmits(cfg, w, c, q, now))
            && (reply.Rejoined? ==> q.credential.Verified?
                                    && (reply.recreated <==> q.credential.token.roomID !in w.st.rooms))
  {
    hide Inv, Ask, TokensOk, DiskOk, Reachable, ClosedFor, RejoinIn, NewRoom;
    ReachableIsOk(cfg, w);
    if q.credential.Verified? {
      AskingFinds(cfg, w.births, w.st, q.credential.token.roomID, now);
    }
  }

  // ---------------------------------------------------------------- creations

  predicate Free(cfg: Config, st: State, id: string, now: int) {
    id !in st.rooms && !ClosedFor(st, id, now, cfg.tombstoneTtl)
  }

  ghost predicate Opens(cfg: Config, st: State, c: Conn, q: CreateRequest, now: int) {
    && c !in st.sessions && GoodEpoch(q.epoch) && (cfg.turnstile ==> q.turnstileOK)
    && q.rateOK && q.ipOK && q.turnOK && st.roomsGlobal < cfg.maxRoomsGlobal
    && exists i :: 0 <= i < |q.candidates| && i < 5 && Free(cfg, st, q.candidates[i], now)
  }

  /** The id found is the first free one. */
  lemma {:induction false} FirstFree(cfg: Config, ids: set<string>, st: State, tomb: seq<(string, Entry)>,
                                     candidates: seq<string>, now: int)
    requires Entombed(cfg, tomb, ids) && ids == st.rooms.Keys
    requires forall id :: ClosedFor(st.(tomb := tomb), id, now, cfg.tombstoneTtl) <==>
                            ClosedFor(st, id, now, cfg.tombstoneTtl)
    ensures var id := Generate(ids, tomb, candidates, now, cfg.tombstoneTtl).1;
            if id.Some? then exists i :: 0 <= i < |candidates| && candidates[i] == id.value
                                         && Free(cfg, st, candidates[i], now)
                                         && forall j :: 0 <= j < i ==> !Free(cfg, st, candidates[j], now)
            else forall j :: 0 <= j < |candidates| ==> !Free(cfg, st, candidates[j], now)
    decreases |candidates|
  {
    hide Entombed, Ask, ClosedFor;
    if candidates != [] {
      var (asked, found) := Ask(tomb, candidates[0], now, cfg.tombstoneTtl);
      AskKeeps(cfg, tomb, ids, candidates[0], now);
      AskingChanges(cfg, st, tomb, ids, candidates[0], now);
      if candidates[0] in ids {
        FirstFree(cfg, ids, st, tomb, candidates[1..], now);
        Shifted(cfg, st, candidates, Generate(ids, tomb, candidates[1..], now, cfg.tombstoneTtl).1, now);
      } else if found.Some? {
        FirstFree(cfg, ids, st, asked, candidates[1..], now);
        Shifted(cfg, st, candidates, Generate(ids, asked, candidates[1..], now, cfg.tombstoneTtl).1, now);
      } else {
        assert Free(cfg, st, candidates[0], now);
      }
    }
  }

  lemma Shifted(cfg: Config, st: State, candidates: seq<string>, id: Option<string>, now: int)
    requires candidates != [] && !Free(cfg, st, candidates[0], now)
    requires var rest := candidates[1..];
             if id.Some? then exists i :: 0 <= i < |rest| && rest[i] == id.value && Free(cfg, st, rest[i], now)
                                          && forall j :: 0 <= j < i ==> !Free(cfg, st, rest[j], now)
             else forall j :: 0 <= j < |rest| ==> !Free(cfg, st, rest[j], now)
    ensures if id.Some? then exists i :: 0 <= i < |candidates| && candidates[i] == id.value
                                         && Free(cfg, st, candidates[i], now)
                                         && forall j :: 0 <= j < i ==> !Free(cfg, st, candidates[j], now)
            else forall j :: 0 <= j < |candidates| ==> !Free(cfg, st, candidates[j], now)
  {
    hide Free;
    var rest := candidates[1..];
    assert forall j :: 1 <= j < |candidates| ==> candidates[j] == rest[j - 1];
    if id.Some? {
      var i :| 0 <= i < |rest| && rest[i] == id.value && Free(cfg, st, rest[i], now)
               && forall j :: 0 <= j < i ==> !Free(cfg, st, rest[j], now);
      assert candidates[i + 1] == id.value;
    }
  }

  /** Asking about one id changes for no id whether it is closed. */
  lemma AskingChanges(cfg: Config, st: State, tomb: seq<(string, Entry)>, ids: set<string>, id: string, now: int)
    requires Entombed(cfg, tomb, ids)
    requires forall k :: ClosedFor(st.(tomb := tomb), k, now, cfg.tombstoneTtl) <==>
                           ClosedFor(st, k, now, cfg.tombstoneTtl)
    ensures var (asked, found) := Ask(tomb, id, now, cfg.tombstoneTtl);
            && (found.Some? <==> ClosedFor(st, id, now, cfg.tombstoneTtl))
            && forall k :: ClosedFor(st.(tomb := asked), k, now, cfg.tombstoneTtl) <==>
                             ClosedFor(st, k, now, cfg.tombstoneTtl)
  {
    hide Drop, Lookup, DistinctKeys;
    AskForgets(tomb, id, now, cfg.tombstoneTtl);
    AskedEntry(tomb, id, now, cfg.tombstoneTtl);
    var asked := Ask(tomb, id, now, cfg.tombstoneTtl).0;
    forall k
      ensures ClosedFor(st.(tomb := asked), k, now, cfg.tombstoneTtl) <==> ClosedFor(st, k, now, cfg.tombstoneTtl)
    {
      assert ClosedFor(st.(tomb := tomb), k, now, cfg.tombstoneTtl) <==> ClosedFor(st, k, now, cfg.tombstoneTtl);
    }
  }

  lemma AskedEntry(tomb: seq<(string, Entry)>, id: string, now: int, ttl: int)
    requires DistinctKeys(tomb)
    ensures var (asked, found) := Ask(tomb, id, now, ttl);
            found.Some? ==> Lookup(asked, id) == Lookup(tomb, id) == found
  {
    hide Drop;
    if Lookup(tomb, id).Some? {
      TouchLookup(tomb, id, Lookup(tomb, id).value);
    }
  }

  /** A creation succeeds if and only if the connection has no room yet, the epoch is good, no limit or
      check stands against it, there are relay credentials, a place is left, and one of the first five
      candidate ids is free. */
  lemma CreatedExactly(cfg: Config, w: World, c: Conn, q: CreateRequest, now: int)
    requires Reachable(cfg, w)
    ensures var reply := CreateStep(cfg, w.st, c, q, now).1;
            && (reply.Created? <==> Opens(cfg, w.st, c, q, now))
            && (reply.Created? ==> Free(cfg, w.st, reply.roomID, now))
  {
    hide Core, Entombed, TokensOk, DiskOk, Reachable, Free, ClosedFor, Generate, NewRoom, HostIn;
    ReachableIsOk(cfg, w);
    var tries := FirstTries(q.candidates);
    FirstFree(cfg, w.st.rooms.Keys, w.st, w.st.tomb, tries, now);
    assert |tries| == (if |q.candidates| < 5 then |q.candidates| else 5);
    assert forall i :: 0 <= i < |tries| ==> tries[i] == q.candidates[i];
  }

  // ---------------------------------------------------------------- what refusals mean

  /** A refused rejoin is told a reason that holds. */
  lemma RejoinRefusalsHold(cfg: Config, w: World, c: Conn, q: RejoinRequest, now: int)
    requires Reachable(cfg, w)
    ensures Linked(w.st)
    ensures var (st', reply) := RejoinStep(cfg, w.st, c, Checked(w.tokens, q), now);
            var signed := q.credential.Verified? && q.credential.token in w.tokens;
            && (reply.Rejoined? || reply.Refused?)
            && (reply == Refused(UnexpectedState) <==> c in w.st.sessions)
            && (reply == Refused(MalformedMessage) ==> !GoodEpoch(q.epoch))
            && (reply == Refused(InvalidRejoinToken) ==> !signed)
            && (reply == Refused(RoomExpired) ==> signed && !Holds(cfg, w, q, now))
            && (reply == Refused(RoomClosed) ==>
                  Holds(cfg, w, q, now) && ClosedFor(w.st, q.credential.token.roomID, now, cfg.tombstoneTtl))
            && (reply == Refused(RateLimited) ==> !q.rateOK || !q.ipOK)
            && (reply == Refused(ServerAtCapacity) ==> !q.turnOK || w.st.roomsGlobal >= cfg.maxRoomsGlobal)
            && (reply.Refused? ==> reply.code in {UnexpectedState, MalformedMessage, InvalidRejoinToken, RoomExpired,
                                                  RoomClosed, RateLimited, ServerAtCapacity})
  {
    hide Inv, Ask, TokensOk, DiskOk, Reachable, ClosedFor, RejoinIn, NewRoom;
    ReachableIsOk(cfg, w);
    if q.credential.Verified? {
      AskingFinds(cfg, w.births, w.st, q.credential.token.roomID, now);
    }
  }

  /** So is a refused creation. */
  lemma CreateRefusalsHold(cfg: Config, w: World, c: Conn, q: CreateRequest, now: int)
    requires Reachable(cfg, w)
    ensures var reply := CreateStep(cfg, w.st, c, q, now).1;
            && (reply.Created? || reply.Refused?)
            && (reply == Refused(UnexpectedState) <==> c in w.st.sessions)
            && (reply == Refused(MalformedMessage) ==> !GoodEpoch(q.epoch))
            && (reply == Refused(TurnstileRequired) ==> cfg.turnstile && !q.turnstileToken)
            && (reply == Refused(TurnstileInvalid) ==> cfg.turnstile && q.turnstileToken && !q.turnstileOK)
            && (reply == Refused(RateLimited) ==> !q.rateOK || !q.ipOK)
            && (reply == Refused(ServerAtCapacity) ==>
                  || !q.turnOK || w.st.roomsGlobal >= cfg.maxRoomsGlobal
                  || forall i :: 0 <= i < |q.candidates| && i < 5 ==> !Free(cfg, w.st, q.candidates[i], now))
            && (reply.Refused? ==> reply.code in {UnexpectedState, MalformedMessage, TurnstileRequired,
                                                  TurnstileInvalid, RateLimited, ServerAtCapacity})
  {
    hide Core, Entombed, TokensOk, DiskOk, Reachable, Free, ClosedFor, Generate, NewRoom, HostIn;
    ReachableIsOk(cfg, w);
    var tries := FirstTries(q.candidates);
    FirstFree(cfg, w.st.rooms.Keys, w.st, w.st.tomb, tries, now);
    assert |tries| == (if |q.candidates| < 5 then |q.candidates| else 5);
    assert forall i :: 0 <= i < |tries| ==> tries[i] == q.candidates[i];
  }

  /** Outside a room a connection may neither signal nor report nor close; inside, a signal must have a
      positive number and a proper payload, and nothing else is refused but an overflow. */
  lemma SessionAnswers(cfg: Config, st: State, c: Conn, seqNo: int, wellFormed: bool, data: string, now: int)
    requires Linked(st)
    ensures var reply := SignalStep(cfg, st, c, seqNo, wellFormed, data, now).1;
            && (reply == Refused(UnexpectedState) <==> c !in st.sessions)
            && (reply == Refused(MalformedMessage) <==> c in st.sessions && (seqNo <= 0 || !wellFormed))
            && reply in {Silent, Refused(UnexpectedState), Refused(MalformedMessage), Refused(SignalBufferOverflow)}
    ensures ReportStep(cfg, st, c, now).1 == CloseStep(cfg, st, c, now).1
         == if c in st.sessions then Silent else Refused(UnexpectedState)
  {
    hide SignalIn, ReportIn, CloseAt;
  }

  // ---------------------------------------------------------------- what replies say

  /** A reply to a creation tells what is then registered, with the creator alone in it. */
  lemma CreatedTells(cfg: Config, w: World, c: Conn, q: CreateRequest, now: int)
    requires Reachable(cfg, w)
    ensures var (st', reply) := CreateStep(cfg, w.st, c, q, now);
            reply.Created? ==>
              && reply.roomID in st'.rooms && st'.rooms[reply.roomID] < |st'.heap|
              && var ref := st'.rooms[reply.roomID];
                 var room := st'.heap[ref];
                 && st'.sessions == w.st.sessions[c := Attached(ref, Host)] && c !in st'.closing
                 && room.roomID == reply.roomID && room.createdAt == now == room.instantiatedAt == room.origin
                 && room.host.conn == Some(c) && room.host.epoch == q.epoch && room.guest.conn.None?
                 && room.ownerIP == q.ip && Protects(room.password, q.password)
                 && room.passwordAttempts == 0 && room.releaseAt.None?
                 && room.peerDeadlineAt == Some(reply.peerDeadlineAt) && reply.expiresAt == room.expiresAt
                 && Earlier(reply.peerDeadlineAt, now + cfg.peerDeadline, room.expiresAt)
                 && reply.token == Token(room.roomID, Host, now / SECOND, room.password, now)
  {
    hide Generate, FirstTries;
  }

  /** A reply to a join tells of the room that the connection is then the guest of. */
  lemma JoinedTells(cfg: Config, w: World, c: Conn, q: JoinRequest, now: int)
    requires Reachable(cfg, w)
    ensures Linked(w.st)
    ensures var (st', reply) := JoinStep(cfg, w.st, c, q, now);
            reply.Joined? ==>
              && q.id.Some? && q.id.value in st'.rooms && st'.rooms[q.id.value] < |st'.heap|
              && var ref := st'.rooms[q.id.value];
                 var room := st'.heap[ref];
                 && st'.sessions == w.st.sessions[c := Attached(ref, Guest)] && c !in st'.closing
                 && room.roomID == q.id.value && room.guest.conn == Some(c) && room.guest.epoch == q.epoch
                 && (reply.hostConnected <==> room.host.conn.Some?) && reply.hostEpoch == room.host.epoch
                 && reply.expiresAt == room.expiresAt
                 && reply.token == Token(room.roomID, Guest, room.createdAt / SECOND, room.password, room.origin)
  {
    hide Inv, Ask, TokensOk, DiskOk, Reachable;
    ReachableIsOk(cfg, w);
    if q.id.Some? && q.id.value in w.st.rooms {
      RegisteredAt(cfg, w.births, w.st, q.id.value);
    }
  }

  /** A reply to a rejoin tells of the room that the connection is then in: whether the peer is there,
      both epochs, when it ends, and, exactly if the peer is away, until when it waits. */
  lemma RejoinedTells(cfg: Config, w: World, c: Conn, q: RejoinRequest, now: int)
    requires Reachable(cfg, w)
    ensures Linked(w.st)
    ensures var (st', reply) := RejoinStep(cfg, w.st, c, Checked(w.tokens, q), now);
            reply.Rejoined? ==>
              && q.credential.Verified? && q.credential.token.roomID in st'.rooms
              && st'.rooms[q.credential.token.roomID] < |st'.heap|
              && var t, ref := q.credential.token, st'.rooms[q.credential.token.roomID];
                 var room := st'.heap[ref];
                 && st'.sessions == w.st.sessions[c := Attached(ref, t.role)] && c !in st'.closing
                 && room.roomID == t.roomID
                 && room.At(t.role).conn == Some(c) && room.At(t.role).epoch == q.epoch
                 && (reply.peerConnected <==> room.At(t.role.Other()).conn.Some?)
                 && reply.hostEpoch == room.host.epoch && reply.guestEpoch == room.guest.epoch
                 && reply.expiresAt == room.expiresAt
                 && reply.deadline == room.peerDeadlineAt
                 && (reply.deadline.Some? <==> room.At(t.role.Other()).conn.None?)
                 && (reply.deadline.Some? ==>
                       Earlier(reply.deadline.value, now + cfg.peerDeadline, room.expiresAt))
                 && (reply.recreated ==>
                       && room.createdAt == t.createdAt * SECOND && room.instantiatedAt == now
                       && room.password == t.password && room.origin == t.origin && room.ownerIP == q.ip
                       && room.passwordAttempts == 0 && room.releaseAt.None?
                       && room.At(t.role.Other()) == EMPTY_SLOT)
  {
    hide Inv, Ask, TokensOk, DiskOk, Reachable;
    ReachableIsOk(cfg, w);
    if q.credential.Verified? && q.credential.token.roomID in w.st.rooms {
      RegisteredAt(cfg, w.births, w.st, q.credential.token.roomID);
    }
  }
}
