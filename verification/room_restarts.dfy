/** What a restart of the process brings back, and a release that it forgets. */
module RoomRestarts {
  import opened Options
  import opened Tombstone
  import opened RoomModel
  import opened RoomRules
  import opened RoomInvariants
  import opened RoomSweep
  import opened RoomRuns
  import opened RoomEpochs
  import opened RoomEffects
  import opened RoomTimes

  // ---------------------------------------------------------------- restarts

  /** The file can be read, the room in it has not ended, and somebody has been in it or is expected. */
  predicate Worth(s: RoomSnapshot, now: int) {
    && s.RoomSnapshot? && s.version == 1 && now < s.expiresAt
    && (s.host.epoch != "" || s.guest.epoch != "" || s.host.buffer != [] || s.guest.buffer != [])
  }

  /** The slot as it was when it was saved, with nobody in it. */
  predicate SlotBack(s: SlotSnapshot, slot: Slot) {
    && slot.conn.None? && slot.log == [] && slot.epoch == s.epoch && slot.lastSeq == s.lastSeq
    && slot.buffer == s.buffer && slot.bufferBytes == s.bufferBytes
    && slot.reportedConnected == s.reportedConnected && slot.overflowReset == s.overflowReset
  }

  predicate RoomBack(cfg: Config, s: RoomSnapshot, room: Room, now: int)
    requires s.RoomSnapshot?
  {
    && SlotBack(s.host, room.host) && SlotBack(s.guest, room.guest) && room.roomID == s.roomID
    && room.createdAt == s.createdAt && room.instantiatedAt == s.instantiatedAt && room.expiresAt == s.expiresAt
    && room.password == s.password && room.passwordAttempts == s.passwordAttempts && room.ownerIP == s.ownerIP
    && room.releaseAt.None? && SetAt(cfg, room.peerDeadlineAt, now, s.expiresAt)
  }

  lemma RevivedExactly(cfg: Config, s: RoomSnapshot, now: int)
    ensures Revived(cfg, s, now).Some? <==> Worth(s, now)
    ensures Revived(cfg, s, now).Some? ==> RoomBack(cfg, s, Revived(cfg, s, now).value, now)
  {
  }

  /** The files with these ids that are worth it are registered, as they were saved; the others of them are gone. */
  ghost predicate BroughtBack(cfg: Config, disk: Disk, ids: seq<string>, st: State, disk': Disk, now: int) {
    && (forall id :: id in st.rooms <==> id in ids && id in disk && Worth(disk[id], now))
    && (forall id :: id in st.rooms ==>
          st.rooms[id] < |st.heap| && disk[id].RoomSnapshot? && RoomBack(cfg, disk[id], st.heap[st.rooms[id]], now))
    && (forall id :: id in disk' <==> id in disk && (id in ids ==> Worth(disk[id], now)))
    && (forall id :: id in disk' ==> disk'[id] == disk[id])
    && st.sessions == map[] && st.closing == map[] && st.tomb == []
  }

  /** One file more. */
  lemma OneMoreBack(cfg: Config, births: Births, disk: Disk, ids: seq<string>, id: string, st: State, disk': Disk,
                    now: int)
    requires DiskOk(cfg, births, disk) && BroughtBack(cfg, disk, ids, st, disk', now) && id in disk
    ensures match Revived(cfg, disk[id], now)
            case None => BroughtBack(cfg, disk, ids + [id], st, disk' - {id}, now)
            case Some(room) => BroughtBack(cfg, disk, ids + [id], AddRestored(st, room), disk', now)
  {
    hide Revived, Worth, RoomBack, DiskOk;
    RevivedExactly(cfg, disk[id], now);
    NamedAfter(cfg, births, disk, id, now);
    assert forall k :: k in ids + [id] <==> k in ids || k == id;
  }

  lemma OneLess(cfg: Config, disk: Disk, ids: seq<string>, id: string, st: State, disk': Disk, now: int)
    requires BroughtBack(cfg, disk, ids, st, disk', now) && id !in disk
    ensures BroughtBack(cfg, disk, ids + [id], st, disk', now)
  {
    hide Worth, RoomBack;
    assert forall k :: k in ids + [id] <==> k in ids || k == id;
  }

  lemma {:induction false} RestoreBringsBack(cfg: Config, births: Births, disk: Disk, ids: seq<string>, now: int)
    requires DiskOk(cfg, births, disk)
    ensures var (st, disk') := RestoreAll(cfg, EMPTY_STATE, disk, ids, now);
            BroughtBack(cfg, disk, ids, st, disk', now)
    decreases |ids|
  {
    hide Revived, BroughtBack, DiskOk, AddRestored;
    if ids == [] {
      NothingBack(cfg, disk, now);
    } else {
      var id, before := ids[|ids| - 1], ids[..|ids| - 1];
      assert before + [id] == ids;
      RestoreBringsBack(cfg, births, disk, before, now);
      var (st, disk') := RestoreAll(cfg, EMPTY_STATE, disk, before, now);
      if id in disk {
        OneMoreBack(cfg, births, disk, before, id, st, disk', now);
      } else {
        OneLess(cfg, disk, before, id, st, disk', now);
      }
    }
  }

  lemma NothingBack(cfg: Config, disk: Disk, now: int)
    ensures BroughtBack(cfg, disk, [], EMPTY_STATE, disk, now)
  {
  }

  lemma NamedAfter(cfg: Config, births: Births, disk: Disk, id: string, now: int)
    requires DiskOk(cfg, births, disk) && id in disk
    ensures Revived(cfg, disk[id], now).Some? ==>
              disk[id].RoomSnapshot? && Revived(cfg, disk[id], now).value.roomID == id
  {
    hide RoomOk;
    assert SnapshotOk(cfg, births, id, disk[id]);
  }

  /** In every run a restart registers exactly the saved rooms worth it, as they were saved but for their
      connections, their pending release and a deadline set anew, and deletes exactly the other files. */
  lemma RestartBringsBack(cfg: Config, actions: seq<Action>, ids: seq<string>, now: int)
    requires ListsFiles(ids, Run(cfg, actions).disk)
    ensures var w, w' := Run(cfg, actions), Run(cfg, actions + [Restart(ids, now)]);
            BroughtBack(cfg, w.disk, ids, w'.st, w'.disk, now)
  {
    hide Run, BroughtBack, RestoreAll;
    var w := Run(cfg, actions);
    EveryRunIsOk(cfg, actions);
    RunMore(cfg, actions, Restart(ids, now));
    RestoreBringsBack(cfg, w.births, w.disk, ids, now);
  }

  // ---------------------------------------------------------------- a release that a restart forgets

  /** Both sides report, the room is saved, and the process is restarted. */
  const FORGOTTEN_RUN: seq<Action> := [
    STALE_RUN[0], STALE_RUN[1], PeerConnected(1, 0), PeerConnected(2, 0), FlushSave("a00000"), Restart(["a00000"], 0)]

  /** The run has come to this one room, with its host and its guest, and nothing on disk. */
  ghost predicate Meeting(w: World, room: Room) {
    && w.st.heap == [room] && "a00000" in w.st.rooms && w.st.rooms["a00000"] == 0 && w.disk == map[]
    && Sits(w.st, 1, 0, Host) && Sits(w.st, 2, 0, Guest)
  }

  lemma Meet(cfg: Config)
    requires cfg.maxRoomsGlobal > 0
    ensures var room := HostIn(NewRoom(cfg, "a00000", 0, 0, None, "", 0), 1, "h");
            Meeting(Run(cfg, [FORGOTTEN_RUN[0]] + [FORGOTTEN_RUN[1]]), JoinIn(room, 2, "g"))
  {
    hide Run, JoinIn;
    var room := HostIn(NewRoom(cfg, "a00000", 0, 0, None, "", 0), 1, "h");
    StaleOpening(cfg);
    StaleJoin(cfg, [FORGOTTEN_RUN[0]], room);
  }

  lemma Report(cfg: Config, actions: seq<Action>, room: Room, c: Conn, role: Role)
    requires Meeting(Run(cfg, actions), room) && Sits(Run(cfg, actions).st, c, 0, role)
    ensures Meeting(Run(cfg, actions + [PeerConnected(c, 0)]), ReportIn(cfg, room, role, 0))
  {
    hide Run, ReportIn, CreateStep, JoinStep, RejoinStep, SignalStep, CloseStep, DetachStep, EvictFor, Live, Marshal,
         Unmarshal, RestoreAll;
    RunMore(cfg, actions, PeerConnected(c, 0));
    var room' := ReportIn(cfg, room, role, 0);
    assert [room][0 := room'] == [room'];
  }

  lemma Save(cfg: Config, actions: seq<Action>, room: Room)
    requires Meeting(Run(cfg, actions), room)
    ensures Run(cfg, actions + [FlushSave("a00000")]).disk == map["a00000" := Marshal(room)]
  {
    hide Run, CreateStep, JoinStep, RejoinStep, SignalStep, ReportStep, CloseStep, DetachStep, EvictFor, Live, Marshal,
         Unmarshal, RestoreAll;
    RunMore(cfg, actions, FlushSave("a00000"));
  }

  lemma ReportedRoom(cfg: Config)
    ensures var room := JoinIn(HostIn(NewRoom(cfg, "a00000", 0, 0, None, "", 0), 1, "h"), 2, "g");
            var both := ReportIn(cfg, ReportIn(cfg, room, Host, 0), Guest, 0);
            && both.host.reportedConnected && both.guest.reportedConnected && both.host.epoch == "h"
            && both.expiresAt == ExpiresAt(cfg, 0, 0)
  {
  }

  /** After this run both sides have reported, and releasing is configured, but no release is pending: a
      snapshot does not hold it, and neither side can report again under its epoch. */
  lemma ForgottenRelease(cfg: Config)
    requires cfg.maxRoomsGlobal > 0 && cfg.roomMaxLifetime > 0 && cfg.rejoinTokenTtl > 0
    ensures var st := Run(cfg, FORGOTTEN_RUN).st;
            && "a00000" in st.rooms && st.rooms["a00000"] < |st.heap|
            && BothReported(st, st.rooms["a00000"]) && st.heap[st.rooms["a00000"]].releaseAt.None?
  {
    hide Run, JoinIn, HostIn, NewRoom, ReportIn, Meeting;
    var all := FORGOTTEN_RUN;
    var room := JoinIn(HostIn(NewRoom(cfg, "a00000", 0, 0, None, "", 0), 1, "h"), 2, "g");
    Meet(cfg);
    MeetingSits(Run(cfg, [all[0]] + [all[1]]), room);
    Report(cfg, [all[0]] + [all[1]], room, 1, Host);
    MeetingSits(Run(cfg, [all[0]] + [all[1]] + [all[2]]), ReportIn(cfg, room, Host, 0));
    Report(cfg, [all[0]] + [all[1]] + [all[2]], ReportIn(cfg, room, Host, 0), 2, Guest);
    var both := ReportIn(cfg, ReportIn(cfg, room, Host, 0), Guest, 0);
    Save(cfg, [all[0]] + [all[1]] + [all[2]] + [all[3]], both);
    ReportedRoom(cfg);
    var saved := [all[0]] + [all[1]] + [all[2]] + [all[3]] + [all[4]];
    RestartBringsBack(cfg, saved, ["a00000"], 0);
    assert saved + [all[5]] == all;
    assert Worth(Run(cfg, saved).disk["a00000"], 0);
    assert "a00000" == ["a00000"][0] && "a00000" in Run(cfg, all).st.rooms;
  }

  lemma MeetingSits(w: World, room: Room)
    requires Meeting(w, room)
    ensures Sits(w.st, 1, 0, Host) && Sits(w.st, 2, 0, Guest)
  {
  }
}
