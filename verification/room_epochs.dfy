/** Why the freshness that delivery order needs is exactly what it needs: after an attach that lacks it,
    a few ordinary steps make a connection hear two numbers of one stream out of order. */
module RoomEpochs {
  import opened Options
  import opened LruSpec
  import opened Tombstone
  import opened RoomModel
  import opened RoomRules
  import opened RoomInvariants
  import opened RoomRuns
  import opened RoomTheorems

  ghost predicate OutOfOrder(w: World) {
    exists ref, role: Role :: 0 <= ref < |w.st.heap| && !Rising(w.st.heap[ref].At(role).log)
  }

  /** Connection c is attached as role to the registered room at ref. */
  ghost predicate Seated(st: State, c: Conn, ref: nat, role: Role) {
    && ref < |st.heap| && c in st.sessions && st.sessions[c] == Attached(ref, role)
    && st.heap[ref].roomID in st.rooms && st.rooms[st.heap[ref].roomID] == ref
  }

  lemma {:induction false} Above(s: set<nat>) returns (n: nat)
    ensures forall x :: x in s ==> x < n
    decreases |s|
  {
    n := 0;
    if s != {} {
      var x :| x in s;
      var m := Above(s - {x});
      n := if m <= x then x + 1 else m;
      assert forall y :: y in s ==> y == x || y in s - {x};
    }
  }

  lemma RunMore(cfg: Config, actions: seq<Action>, a: Action)
    ensures Run(cfg, actions + [a]) == Next(cfg, Run(cfg, actions), a)
  {
    assert (actions + [a])[..|actions|] == actions;
  }

  // ---------------------------------------------------------------- what is sure to be accepted

  lemma UnburiedIsOpen(tomb: seq<(string, Entry)>, id: string, now: int, ttl: int)
    requires !Resident(tomb, id)
    ensures Ask(tomb, id, now, ttl) == (tomb, None)
  {
  }

  function OpenPassword(room: Room): string {
    if room.password.Some? then room.password.value else ""
  }

  lemma JoinSucceeds(cfg: Config, births: Births, st: State, d: Conn, ref: nat, epoch: string, now: int)
    requires Inv(cfg, births, st) && d !in st.sessions && ref < |st.heap| && !BadEpoch(epoch)
    requires var room := st.heap[ref]; room.roomID in st.rooms && st.rooms[room.roomID] == ref && room.guest.conn.None?
    ensures Linked(st)
    ensures var room := st.heap[ref];
            var q := JoinRequest(Some(room.roomID), epoch, OpenPassword(room), true);
            var (st', reply) := JoinStep(cfg, st, d, q, now);
            && st' == AttachAt(st, d, ref, Guest, JoinIn(room, d, epoch))
            && reply.Joined? && reply.token == TokenFor(room, Guest)
  {
    hide Core, Resident, Ask, DistinctKeys;
    InvLinked(cfg, births, st);
    var room := st.heap[ref];
    assert room.roomID in st.rooms.Keys;
    UnburiedIsOpen(st.tomb, room.roomID, now, cfg.tombstoneTtl);
  }

  lemma RejoinSucceeds(cfg: Config, births: Births, st: State, d: Conn, ref: nat, role: Role, epoch: string, now: int)
    requires Inv(cfg, births, st) && d !in st.sessions && ref < |st.heap| && !BadEpoch(epoch)
    requires var room := st.heap[ref]; room.roomID in st.rooms && st.rooms[room.roomID] == ref
    requires !TokenExpired(TokenFor(st.heap[ref], role), now, cfg.rejoinTokenTtl)
    ensures Linked(st)
    ensures var room := st.heap[ref];
            var q := RejoinRequest("", Verified(TokenFor(room, role)), epoch, true, true, true);
            RejoinStep(cfg, st, d, q, now).0 ==
              AttachAt(st, d, ref, role, RejoinIn(cfg, room, role, d, epoch, false, now))
  {
    hide Core, Resident, Ask, DistinctKeys, RejoinIn;
    InvLinked(cfg, births, st);
    var room := st.heap[ref];
    assert room.roomID in st.rooms.Keys;
    UnburiedIsOpen(st.tomb, room.roomID, now, cfg.tombstoneTtl);
  }

  // ---------------------------------------------------------------- a few more steps

  /** The listener has heard too much already: one signal shows it. */
  lemma HeardAlready(cfg: Config, actions: seq<Action>, c: Conn, ref: nat, role: Role) returns (more: seq<Action>)
    requires Seated(Run(cfg, actions).st, c, ref, role)
    requires var room := Run(cfg, actions).st.heap[ref];
             && room.At(role).lastSeq >= 0 && room.At(role.Other()).conn.Some?
             && !Counted(room.At(role.Other()).log, role, room.At(role).epoch, room.At(role).lastSeq)
    ensures OutOfOrder(Run(cfg, actions + more)) && |more| <= 1
  {
    hide Run, Rising, Counted, SignalIn, Room.At;
    var w := Run(cfg, actions);
    var room := w.st.heap[ref];
    var n := room.At(role).lastSeq + 1;
    var a := SendSignal(c, n, true, "", 0);
    more := [a];
    UncountedIsHeard(cfg, room, role, "", 0);
    RunMore(cfg, actions, a);
    assert Run(cfg, actions + more).st.heap[ref] == SignalIn(cfg, room, role, n, "", 0).0;
    assert !Rising(Run(cfg, actions + more).st.heap[ref].At(role.Other()).log);
  }

  /** The host may be replayed too much: it comes back under its epoch, and one signal shows it. */
  lemma HostReplayed(cfg: Config, actions: seq<Action>, c: Conn, ref: nat) returns (more: seq<Action>)
    requires Seated(Run(cfg, actions).st, c, ref, Guest)
    requires var room := Run(cfg, actions).st.heap[ref];
             && room.guest.lastSeq >= 0 && room.host.epoch != ""
             && !Counted(Replayed(room.host.buffer), Guest, room.guest.epoch, room.guest.lastSeq)
    ensures OutOfOrder(Run(cfg, actions + more)) && |more| <= 2
  {
    hide Run, Rising, Counted, RejoinStep, Inv, DiskOk, TokenDated;
    EveryRunIsOk(cfg, actions);
    var w := Run(cfg, actions);
    var room := w.st.heap[ref];
    var t := TokenFor(room, Host);
    var d := Above(w.st.sessions.Keys);
    var now := t.createdAt * SECOND + cfg.rejoinTokenTtl;
    HostTokenHeld(cfg, w, ref);
    RejoinSucceeds(cfg, w.births, w.st, d, ref, Host, room.host.epoch, now);
    var a := RejoinRoom(d, RejoinRequest("", Verified(t), room.host.epoch, true, true, true), now);
    RunMore(cfg, actions, a);
    var rest := HeardAlready(cfg, actions + [a], c, ref, Guest);
    more := [a] + rest;
    assert actions + more == actions + [a] + rest;
  }

  /** A room's host token is always around, and its epochs are ones that an attach accepts. */
  lemma HostTokenHeld(cfg: Config, w: World, ref: nat)
    requires WorldOk(cfg, w) && ref < |w.st.heap|
    ensures TokenFor(w.st.heap[ref], Host) in w.tokens && EpochsFit(w.st.heap[ref])
  {
    hide Accounted, Dated, Held, Numbered, Entombed, DiskOk, TokenDated;
    FitsAt(cfg, w.births, w.st.heap, w.st.sessions, ref);
  }

  /** The guest that is away may be replayed too much: it joins, comes back, and one signal shows it. */
  lemma GuestReplayed(cfg: Config, actions: seq<Action>, c: Conn, ref: nat) returns (more: seq<Action>)
    requires Seated(Run(cfg, actions).st, c, ref, Host)
    requires var room := Run(cfg, actions).st.heap[ref];
             && room.host.lastSeq >= 0 && room.guest.conn.None?
             && !Counted(Replayed(room.guest.buffer), Host, room.host.epoch, room.host.lastSeq)
    ensures OutOfOrder(Run(cfg, actions + more)) && |more| <= 3
  {
    hide Run, Rising, Counted, JoinStep, Inv, DiskOk, TokensOk, TokenFor;
    EveryRunIsOk(cfg, actions);
    var w := Run(cfg, actions);
    var room := w.st.heap[ref];
    var d := Above(w.st.sessions.Keys);
    JoinSucceeds(cfg, w.births, w.st, d, ref, "e", 0);
    var a := JoinRoom(d, JoinRequest(Some(room.roomID), "e", OpenPassword(room), true), 0);
    RunMore(cfg, actions, a);
    JoinSame(room, d, "e");
    var rest := GuestComesBack(cfg, actions + [a], c, ref);
    more := [a] + rest;
    assert actions + more == actions + [a] + rest;
  }

  lemma GuestComesBack(cfg: Config, actions: seq<Action>, c: Conn, ref: nat) returns (more: seq<Action>)
    requires Seated(Run(cfg, actions).st, c, ref, Host)
    requires var room := Run(cfg, actions).st.heap[ref];
             && room.host.lastSeq >= 0 && !BadEpoch(room.guest.epoch)
             && TokenFor(room, Guest) in Run(cfg, actions).tokens
             && !Counted(Replayed(room.guest.buffer), Host, room.host.epoch, room.host.lastSeq)
    ensures OutOfOrder(Run(cfg, actions + more)) && |more| <= 2
  {
    hide Run, Rising, Counted, RejoinStep, Inv, DiskOk, TokensOk;
    EveryRunIsOk(cfg, actions);
    var w := Run(cfg, actions);
    var room := w.st.heap[ref];
    var t := TokenFor(room, Guest);
    var d := Above(w.st.sessions.Keys);
    var now := t.createdAt * SECOND + cfg.rejoinTokenTtl;
    RejoinSucceeds(cfg, w.births, w.st, d, ref, Guest, room.guest.epoch, now);
    var a := RejoinRoom(d, RejoinRequest("", Verified(t), room.guest.epoch, true, true, true), now);
    RunMore(cfg, actions, a);
    var rest := HeardAlready(cfg, actions + [a], c, ref, Host);
    more := [a] + rest;
    assert actions + more == actions + [a] + rest;
  }

  /** Connection c has just been seated where the peer has heard, or may be replayed, too much. */
  ghost predicate ToSurface(st: State, c: Conn, ref: nat, role: Role) {
    && Seated(st, c, ref, role) && Uncounted(st.heap[ref], role)
    && (role.Host? && st.heap[ref].guest.conn.Some? ==>
          !Counted(st.heap[ref].guest.log, Host, st.heap[ref].host.epoch, st.heap[ref].host.lastSeq))
  }

  /** Numbers left uncounted are heard out of order after at most three more steps. */
  lemma UncountedSurfaces(cfg: Config, actions: seq<Action>, c: Conn, ref: nat, role: Role) returns (more: seq<Action>)
    requires ToSurface(Run(cfg, actions).st, c, ref, role)
    ensures OutOfOrder(Run(cfg, actions + more)) && |more| <= 3
  {
    hide Run, Counted, OutOfOrder;
    var room := Run(cfg, actions).st.heap[ref];
    var me, you := room.At(role), room.At(role.Other());
    if you.conn.Some? && !Counted(you.log, role, me.epoch, me.lastSeq) {
      more := HeardAlready(cfg, actions, c, ref, role);
    } else if role.Guest? {
      more := HostReplayed(cfg, actions, c, ref);
    } else {
      more := GuestReplayed(cfg, actions, c, ref);
    }
  }

  /** After a fresh run, an attach that is not fresh can be followed by at most three ordinary steps at
      whose end a connection has heard numbers of one stream out of order. */
  lemma UnfreshSurfaces(cfg: Config, actions: seq<Action>, a: Action) returns (more: seq<Action>)
    requires FreshRun(cfg, actions) && !FreshAttach(cfg, Run(cfg, actions), a)
    ensures OutOfOrder(Run(cfg, actions + [a] + more)) && |more| <= 3
  {
    hide Run, FreshRun, FreshAttach, OutOfOrder, ToSurface, WorldOk, WorldInOrder;
    var w := Run(cfg, actions);
    RunOrderExactly(cfg, actions);
    assert actions[..|actions|] == actions;
    assert WorldInOrder(Run(cfg, actions[..|actions|]));
    EveryRunIsOk(cfg, actions);
    RunMore(cfg, actions, a);
    var ref, role := UnfreshLeavesUncounted(cfg, w, a);
    more := UncountedSurfaces(cfg, actions + [a], a.c, ref, role);
  }

  lemma UnfreshLeavesUncounted(cfg: Config, w: World, a: Action) returns (ref: nat, role: Role)
    requires WorldOk(cfg, w) && WorldInOrder(w) && !FreshAttach(cfg, w, a)
    ensures a.JoinRoom? || a.RejoinRoom?
    ensures ToSurface(Next(cfg, w, a).st, a.c, ref, role)
  {
    hide WorldOk, WorldInOrder, JoinFresh, RejoinFresh, JoinStep, RejoinStep, ToSurface;
    match a
    case JoinRoom(c, q, now) =>
      ref := UnfreshJoin(cfg, w, c, q, now);
      role := Guest;
    case RejoinRoom(c, q, now) =>
      ref, role := UnfreshRejoin(cfg, w, c, q, now);
  }

  lemma UnfreshJoin(cfg: Config, w: World, c: Conn, q: JoinRequest, now: int) returns (ref: nat)
    requires WorldOk(cfg, w) && WorldInOrder(w) && !FreshAttach(cfg, w, JoinRoom(c, q, now))
    ensures ToSurface(JoinStep(cfg, w.st, c, q, now).0, c, ref, Guest)
  {
    hide InOrder, JoinFresh, Uncounted, Counted, Ask, TokensOk, DiskOk, Entombed, Fits, Held, JoinIn, DiskInOrder;
    ref := w.st.rooms[q.id.value];
    var room := w.st.heap[ref];
    OrderAt(w.st.heap, ref);
    JoinLeavesUncounted(room, c, q.epoch);
    JoinSame(room, c, q.epoch);
  }

  lemma UnfreshRejoin(cfg: Config, w: World, c: Conn, q: RejoinRequest, now: int) returns (ref: nat, role: Role)
    requires WorldOk(cfg, w) && WorldInOrder(w) && !FreshAttach(cfg, w, RejoinRoom(c, q, now))
    ensures ToSurface(RejoinStep(cfg, w.st, c, Checked(w.tokens, q), now).0, c, ref, role)
  {
    hide InOrder, RejoinFresh, Uncounted, Counted, Ask, TokensOk, DiskOk, Entombed, Fits, Held, RejoinIn, DiskInOrder,
         Checked;
    CheckedSame(w.tokens, q);
    var t := Checked(w.tokens, q).credential.token;
    ref, role := w.st.rooms[t.roomID], t.role;
    var room := w.st.heap[ref];
    OrderAt(w.st.heap, ref);
    RejoinLeavesUncounted(cfg, room, role, c, q.epoch, false, now);
    RejoinSame(cfg, room, role, c, q.epoch, now);
  }

  lemma JoinSame(room: Room, c: Conn, epoch: string)
    ensures JoinIn(room, c, epoch).roomID == room.roomID
    ensures TokenFor(JoinIn(room, c, epoch), Guest) == TokenFor(room, Guest)
  {
  }

  lemma RejoinSame(cfg: Config, room: Room, role: Role, c: Conn, epoch: string, now: int)
    ensures var room' := RejoinIn(cfg, room, role, c, epoch, false, now);
            room'.roomID == room.roomID && room'.At(role).epoch == epoch
  {
  }

  // ---------------------------------------------------------------- a run that is not fresh

  const OPEN_HOST: CreateRequest := CreateRequest("", "h", "", true, true, true, true, true, ["a00000"])

  const TOKEN: Token := Token("a00000", Guest, 0, None, 0)

  function Comeback(epoch: string): RejoinRequest {
    RejoinRequest("", Verified(TOKEN), epoch, true, true, true)
  }

  /** A guest leaves its epoch for another, comes back under it, and starts counting again. */
  const STALE_RUN: seq<Action> := [
    CreateRoom(1, OPEN_HOST, 0),
    JoinRoom(2, JoinRequest(Some("a00000"), "g", "", true), 0),
    SendSignal(2, 7, true, "", 0),
    RejoinRoom(3, Comeback("x"), 0),
    RejoinRoom(4, Comeback("g"), 0),
    SendSignal(4, 1, true, "", 0)]

  /** The run has come to this one room, and nobody beyond c has attached. */
  ghost predicate Standing(w: World, room: Room, c: Conn) {
    && w.st.heap == [room] && "a00000" in w.st.rooms && w.st.rooms["a00000"] == 0
    && TokenFor(room, Guest) == TOKEN && (forall d :: d in w.st.sessions ==> d <= c)
  }

  lemma StaleOpening(cfg: Config)
    requires cfg.maxRoomsGlobal > 0
    ensures var room := HostIn(NewRoom(cfg, "a00000", 0, 0, None, "", 0), 1, "h");
            Standing(Run(cfg, [STALE_RUN[0]]), room, 1)
    ensures var st := Run(cfg, [STALE_RUN[0]]).st; 1 in st.sessions && st.sessions[1] == Attached(0, Host)
    ensures Run(cfg, [STALE_RUN[0]]).disk == map[]
  {
    RunMore(cfg, [], STALE_RUN[0]);
    assert [] + [STALE_RUN[0]] == [STALE_RUN[0]];
    assert FirstTries(["a00000"])[0] == "a00000";
    assert Ask([], "a00000", 0, cfg.tombstoneTtl).1.None?;
  }

  lemma StaleJoin(cfg: Config, actions: seq<Action>, room: Room)
    requires Standing(Run(cfg, actions), room, 1) && room.guest.conn.None?
    ensures var w := Run(cfg, actions + [STALE_RUN[1]]);
            && Standing(w, JoinIn(room, 2, "g"), 2) && TOKEN in w.tokens
            && 2 in w.st.sessions && w.st.sessions == Run(cfg, actions).st.sessions[2 := Attached(0, Guest)]
            && w.disk == Run(cfg, actions).disk
  {
    hide Run, Inv, DiskOk, TokensOk, JoinStep;
    EveryRunIsOk(cfg, actions);
    RunMore(cfg, actions, STALE_RUN[1]);
    JoinSucceeds(cfg, Run(cfg, actions).births, Run(cfg, actions).st, 2, 0, "g", 0);
    JoinSame(room, 2, "g");
  }

  lemma StaleRejoin(cfg: Config, actions: seq<Action>, room: Room, c: Conn, epoch: string)
    requires Standing(Run(cfg, actions), room, c) && TOKEN in Run(cfg, actions).tokens
    requires cfg.rejoinTokenTtl >= 0 && !BadEpoch(epoch)
    ensures var w := Run(cfg, actions + [RejoinRoom(c + 1, Comeback(epoch), 0)]);
            && Standing(w, RejoinIn(cfg, room, Guest, c + 1, epoch, false, 0), c + 1) && TOKEN in w.tokens
            && c + 1 in w.st.sessions && w.st.sessions[c + 1] == Attached(0, Guest)
  {
    hide Run, Inv, DiskOk, TokensOk, RejoinStep;
    EveryRunIsOk(cfg, actions);
    RunMore(cfg, actions, RejoinRoom(c + 1, Comeback(epoch), 0));
    RejoinSucceeds(cfg, Run(cfg, actions).births, Run(cfg, actions).st, c + 1, 0, Guest, epoch, 0);
  }

  lemma StaleSignal(cfg: Config, actions: seq<Action>, room: Room, c: Conn, n: int)
    requires Standing(Run(cfg, actions), room, c) && n > 0
    requires c in Run(cfg, actions).st.sessions && Run(cfg, actions).st.sessions[c] == Attached(0, Guest)
    ensures var w := Run(cfg, actions + [SendSignal(c, n, true, "", 0)]);
            && Standing(w, SignalIn(cfg, room, Guest, n, "", 0).0, c)
            && w.tokens == Run(cfg, actions).tokens && w.st.sessions == Run(cfg, actions).st.sessions
  {
    hide Run;
    RunMore(cfg, actions, SendSignal(c, n, true, "", 0));
  }

  /** Under every configuration the server accepts, this run ends out of order; its second return is
      not fresh. */
  lemma StaleEpochRun(cfg: Config)
    requires cfg.maxRoomsGlobal > 0 && cfg.rejoinTokenTtl > 0
    ensures OutOfOrder(Run(cfg, STALE_RUN)) && !FreshRun(cfg, STALE_RUN)
  {
    hide Run, FreshRun, JoinIn, RejoinIn, SignalIn, Standing, Rising;
    var all := STALE_RUN;
    var room := HostIn(NewRoom(cfg, "a00000", 0, 0, None, "", 0), 1, "h");
    StaleOpening(cfg);
    StaleJoin(cfg, [all[0]], room);
    var joined := JoinIn(room, 2, "g");
    StaleSignal(cfg, [all[0]] + [all[1]], joined, 2, 7);
    var sent := SignalIn(cfg, joined, Guest, 7, "", 0).0;
    StaleRejoin(cfg, [all[0]] + [all[1]] + [all[2]], sent, 2, "x");
    var away := RejoinIn(cfg, sent, Guest, 3, "x", false, 0);
    StaleRejoin(cfg, [all[0]] + [all[1]] + [all[2]] + [all[3]], away, 3, "g");
    var back := RejoinIn(cfg, away, Guest, 4, "g", false, 0);
    StaleSignal(cfg, [all[0]] + [all[1]] + [all[2]] + [all[3]] + [all[4]], back, 4, 1);
    var again := SignalIn(cfg, back, Guest, 1, "", 0).0;
    assert [all[0]] + [all[1]] + [all[2]] + [all[3]] + [all[4]] + [all[5]] == all;
    StaleEpochBreaksOrder(cfg, "");
    AloneOutOfOrder(Run(cfg, all), again, 4);
    if FreshRun(cfg, all) {
      DeliveryOrder(cfg, all, 0, Host);
    }
  }

  lemma AloneOutOfOrder(w: World, room: Room, c: Conn)
    requires Standing(w, room, c) && !Rising(room.host.log)
    ensures OutOfOrder(w) && |w.st.heap| == 1 && w.st.heap[0] == room
  {
    hide Rising;
    assert !Rising(w.st.heap[0].At(Host).log);
  }

  /** The same in one room, step by step. */
  lemma StaleEpochBreaksOrder(cfg: Config, data: string)
    ensures var room := HostIn(NewRoom(cfg, "a00000", 0, 0, None, "", 0), 1, "h");
            var sent := SignalIn(cfg, JoinIn(room, 2, "g"), Guest, 7, data, 0).0;
            var away := RejoinIn(cfg, sent, Guest, 3, "x", false, 0);
            var back := RejoinIn(cfg, away, Guest, 4, "g", false, 0);
            var again := SignalIn(cfg, back, Guest, 1, data, 0).0;
            room.guest.conn.None? && !RejoinFresh(away, Guest, "g", false) && !Rising(again.host.log)
  {
    var room := HostIn(NewRoom(cfg, "a00000", 0, 0, None, "", 0), 1, "h");
    var sent := SignalIn(cfg, JoinIn(room, 2, "g"), Guest, 7, data, 0).0;
    var away := RejoinIn(cfg, sent, Guest, 3, "x", false, 0);
    var back := RejoinIn(cfg, away, Guest, 4, "g", false, 0);
    var again := SignalIn(cfg, back, Guest, 1, data, 0).0;
    assert sent.host.log[1] == Heard(Signal(Guest, "g", 7, data, 0));
    assert again.host.log[1] == back.host.log[1] == away.host.log[1] == sent.host.log[1];
    assert again.host.log[4] == Heard(Signal(Guest, "g", 1, data, 0));
  }
}
