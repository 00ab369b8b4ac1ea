/** What every room remembers besides its slots, in every run: who it is, its deadline, the wrong guesses at its
    password, and its release. */
module RoomTimes {
  import opened Options
  import opened LruSpec
  import opened Tombstone
  import opened RoomModel
  import opened RoomRules
  import opened RoomInvariants
  import opened RoomRuns
  import opened RoomAbsence
  import opened RoomEffects

  /** With this report both sides of the room at ref have reported, and that is to release it. */
  ghost predicate Completes(cfg: Config, st: State, a: Action, ref: nat) {
    && cfg.releaseSockets && ref < |st.heap|
    && exists role :: Reports(st, a, ref, role) && !st.heap[ref].At(role).reportedConnected
                      && st.heap[ref].At(role.Other()).reportedConnected
  }

  /** The earlier of one peer deadline from now and the end of the room. */
  predicate SetAt(cfg: Config, t: Option<int>, now: int, expiresAt: int) {
    t.Some? && Earlier(t.value, now + cfg.peerDeadline, expiresAt)
  }

  ghost predicate ReleaseFollows(cfg: Config, w: World, a: Action, ref: nat, room': Room)
    requires ref < |w.st.heap|
  {
    room'.releaseAt ==
      if Completes(cfg, w.st, a, ref) then Some(a.now + cfg.peerConnectedGrace) else w.st.heap[ref].releaseAt
  }

  ghost predicate DeadlineFollows(cfg: Config, w: World, a: Action, ref: nat, room': Room)
    requires Linked(w.st) && ref < |w.st.heap|
  {
    var room := w.st.heap[ref];
    && (Joins(cfg, w, a, ref) ==> room'.peerDeadlineAt.None?)
    && (forall role :: Rejoins(cfg, w, a, ref, role) ==>
          if room.At(role.Other()).conn.Some? then room'.peerDeadlineAt.None?
          else SetAt(cfg, room'.peerDeadlineAt, a.now, room.expiresAt))
    && (forall role :: Leaves(w.st, a, ref, role) ==>
          if room.At(role.Other()).conn.Some? || room.host.epoch != "" || room.guest.epoch != ""
          then SetAt(cfg, room'.peerDeadlineAt, a.now, room.expiresAt)
          else room'.peerDeadlineAt == room.peerDeadlineAt)
    && (!a.JoinRoom? && !a.RejoinRoom? && !a.Detach? ==> room'.peerDeadlineAt == room.peerDeadlineAt)
  }

  ghost predicate RestFollows(cfg: Config, w: World, a: Action, ref: nat, room': Room)
    requires ref < |w.st.heap|
  {
    && SameRoom(w.st.heap[ref], room')
    && room'.passwordAttempts == w.st.heap[ref].passwordAttempts + if Guesses(w.st, a, ref) then 1 else 0
  }

  lemma JoinTimes(cfg: Config, w: World, a: Action, ref: nat)
    requires Linked(w.st) && ref < |w.st.heap| && a.JoinRoom?
    ensures ReleaseFollows(cfg, w, a, ref, Touched(cfg, w, a, ref))
    ensures DeadlineFollows(cfg, w, a, ref, Touched(cfg, w, a, ref))
    ensures RestFollows(cfg, w, a, ref, Touched(cfg, w, a, ref))
  {
    hide JoinStep, Guesses, ComesBack;
    if Guesses(w.st, a, ref) {
      GuessesFail(cfg, w, a, ref);
    }
  }

  lemma RejoinTimes(cfg: Config, w: World, a: Action, ref: nat)
    requires Linked(w.st) && ref < |w.st.heap| && a.RejoinRoom?
    ensures ReleaseFollows(cfg, w, a, ref, Touched(cfg, w, a, ref))
    ensures DeadlineFollows(cfg, w, a, ref, Touched(cfg, w, a, ref))
    ensures RestFollows(cfg, w, a, ref, Touched(cfg, w, a, ref))
  {
    hide ComesBack, RejoinIn, Guesses;
    OneRole(cfg, w, a, ref, Host);
    RejoinInTimes(cfg, w.st.heap[ref], Host, a.c, a.rejoin.epoch, a.now);
    RejoinInTimes(cfg, w.st.heap[ref], Guest, a.c, a.rejoin.epoch, a.now);
    NoGuess(w.st, a, ref);
  }

  lemma NoGuess(st: State, a: Action, ref: nat)
    requires !a.JoinRoom?
    ensures !Guesses(st, a, ref)
  {
  }

  lemma RejoinInTimes(cfg: Config, room: Room, role: Role, c: Conn, epoch: string, now: int)
    ensures var room' := RejoinIn(cfg, room, role, c, epoch, false, now);
            && SameRoom(room, room') && room'.releaseAt == room.releaseAt
            && room'.passwordAttempts == room.passwordAttempts
            && (if room.At(role.Other()).conn.Some? then room'.peerDeadlineAt.None?
                else SetAt(cfg, room'.peerDeadlineAt, now, room.expiresAt))
  {
  }

  lemma ReportTimes(cfg: Config, w: World, a: Action, ref: nat)
    requires Linked(w.st) && ref < |w.st.heap| && a.PeerConnected?
    ensures ReleaseFollows(cfg, w, a, ref, Touched(cfg, w, a, ref))
    ensures DeadlineFollows(cfg, w, a, ref, Touched(cfg, w, a, ref))
    ensures RestFollows(cfg, w, a, ref, Touched(cfg, w, a, ref))
  {
    hide Room.At, Guesses;
    NoGuess(w.st, a, ref);
    if a.c in w.st.sessions && w.st.sessions[a.c].ref == ref {
      var role := w.st.sessions[a.c].role;
      assert Reports(w.st, a, ref, role);
      ReportInTimes(cfg, w.st.heap[ref], role, a.now);
    }
  }

  lemma ReportInTimes(cfg: Config, room: Room, role: Role, now: int)
    ensures var room' := ReportIn(cfg, room, role, now);
            && SameRoom(room, room') && room'.peerDeadlineAt == room.peerDeadlineAt
            && room'.passwordAttempts == room.passwordAttempts
            && room'.releaseAt ==
                 if cfg.releaseSockets && !room.At(role).reportedConnected && room.At(role.Other()).reportedConnected
                 then Some(now + cfg.peerConnectedGrace) else room.releaseAt
  {
  }

  lemma DetachTimes(cfg: Config, w: World, a: Action, ref: nat)
    requires Linked(w.st) && ref < |w.st.heap| && a.Detach?
    ensures ReleaseFollows(cfg, w, a, ref, Touched(cfg, w, a, ref))
    ensures DeadlineFollows(cfg, w, a, ref, Touched(cfg, w, a, ref))
    ensures RestFollows(cfg, w, a, ref, Touched(cfg, w, a, ref))
  {
    hide Guesses, LeaveIn;
    NoGuess(w.st, a, ref);
    if a.c in w.st.sessions && w.st.sessions[a.c].ref == ref {
      LeaveInTimes(cfg, w.st.heap[ref], w.st.sessions[a.c].role, a.c, a.now);
    }
  }

  lemma LeaveInTimes(cfg: Config, room: Room, role: Role, c: Conn, now: int)
    ensures var room' := LeaveIn(cfg, room, role, c, now).0;
            && SameRoom(room, room') && room'.releaseAt == room.releaseAt
            && room'.passwordAttempts == room.passwordAttempts
            && (if room.At(role.Other()).conn.Some? || room.host.epoch != "" || room.guest.epoch != ""
                then SetAt(cfg, room'.peerDeadlineAt, now, room.expiresAt)
                else room'.peerDeadlineAt == room.peerDeadlineAt)
  {
  }

  lemma OtherTimes(cfg: Config, w: World, a: Action, ref: nat)
    requires Linked(w.st) && ref < |w.st.heap| && (Aside(a) || a.SendSignal?)
    ensures ReleaseFollows(cfg, w, a, ref, Touched(cfg, w, a, ref))
    ensures DeadlineFollows(cfg, w, a, ref, Touched(cfg, w, a, ref))
    ensures RestFollows(cfg, w, a, ref, Touched(cfg, w, a, ref))
  {
    hide JoinStep, ComesBack, Farewell, Guesses;
    NoGuess(w.st, a, ref);
  }

  /** The whole effect of any step but a restart on what a room remembers besides its slots. */
  lemma NextTimes(cfg: Config, w: World, a: Action, ref: nat)
    requires WorldOk(cfg, w) && !a.Restart? && ref < |w.st.heap|
    ensures var heap := Next(cfg, w, a).st.heap;
            && ref < |heap|
            && ReleaseFollows(cfg, w, a, ref, heap[ref])
            && DeadlineFollows(cfg, w, a, ref, heap[ref])
            && RestFollows(cfg, w, a, ref, heap[ref])
  {
    hide Touched, Next, Inv, TokensOk, DiskOk, ReleaseFollows, DeadlineFollows, RestFollows;
    NextTouches(cfg, w, a, ref);
    if a.JoinRoom? {
      JoinTimes(cfg, w, a, ref);
    } else if a.RejoinRoom? {
      RejoinTimes(cfg, w, a, ref);
    } else if a.PeerConnected? {
      ReportTimes(cfg, w, a, ref);
    } else if a.Detach? {
      DetachTimes(cfg, w, a, ref);
    } else {
      OtherTimes(cfg, w, a, ref);
    }
  }

  // ---------------------------------------------------------------- new rooms

  /** Nothing has happened in the room yet. */
  predicate Untold(room: Room) {
    && room.releaseAt.None? && room.passwordAttempts == 0
    && !room.host.reportedConnected && !room.guest.reportedConnected
  }

  lemma CreateAdds(cfg: Config, st: State, c: Conn, q: CreateRequest, now: int)
    ensures var heap := CreateStep(cfg, st, c, q, now).0.heap;
            |heap| == |st.heap| || (|heap| == |st.heap| + 1 && Untold(heap[|st.heap|]))
  {
    hide Generate;
  }

  lemma JoinAdds(cfg: Config, st: State, c: Conn, q: JoinRequest, now: int)
    requires Linked(st)
    ensures |JoinStep(cfg, st, c, q, now).0.heap| == |st.heap|
  {
    hide Ask, JoinIn, ClearIn, Insert;
  }

  lemma RejoinAdds(cfg: Config, st: State, c: Conn, q: RejoinRequest, now: int)
    requires Linked(st)
    ensures var heap := RejoinStep(cfg, st, c, q, now).0.heap;
            |heap| == |st.heap| || (|heap| == |st.heap| + 1 && Untold(heap[|st.heap|]))
  {
    hide Ask;
  }

  /** A step adds at most one room, and a new one. */
  lemma NextAdds(cfg: Config, w: World, a: Action)
    requires Linked(w.st) && !a.Restart?
    ensures var heap := Next(cfg, w, a).st.heap;
            |heap| == |w.st.heap| || (|heap| == |w.st.heap| + 1 && Untold(heap[|w.st.heap|]))
  {
    hide CreateStep, JoinStep, RejoinStep, SignalIn, ReportIn, LeaveIn, ClearIn, Insert, Live, Marshal, Unmarshal,
         DueFor, Untold;
    match a
    case CreateRoom(c, q, now) => CreateAdds(cfg, w.st, c, q, now);
    case JoinRoom(c, q, now) => JoinAdds(cfg, w.st, c, q, now);
    case RejoinRoom(c, q, now) => RejoinAdds(cfg, w.st, c, Checked(w.tokens, q), now);
    case _ =>
  }

  // ---------------------------------------------------------------- releases

  /** When a report last completed the two of the room at ref, since the process started. */
  ghost function Completion(cfg: Config, actions: seq<Action>, ref: nat): Option<int> {
    if actions == [] then None
    else
      var before, a := actions[..|actions| - 1], actions[|actions| - 1];
      var w := Run(cfg, before);
      if a.Restart? && ListsFiles(a.ids, w.disk) then None
      else if Completes(cfg, w.st, a, ref) then Some(a.now)
      else Completion(cfg, before, ref)
  }

  lemma {:induction false} NotYetCompleted(cfg: Config, actions: seq<Action>, ref: nat)
    requires ref >= |Run(cfg, actions).st.heap|
    ensures Completion(cfg, actions, ref).None?
    decreases |actions|
  {
    hide Next;
    if actions != [] {
      var before, a := actions[..|actions| - 1], actions[|actions| - 1];
      var w := Run(cfg, before);
      EveryRunIsOk(cfg, before);
      if !a.Restart? {
        NextAdds(cfg, w, a);
        NotYetCompleted(cfg, before, ref);
      } else {
        RestartOrNot(cfg, w, a);
        if !ListsFiles(a.ids, w.disk) {
          NotYetCompleted(cfg, before, ref);
        }
      }
    }
  }

  ghost predicate NonePending(heap: seq<Room>) {
    forall ref :: 0 <= ref < |heap| ==> heap[ref].releaseAt.None?
  }

  lemma NonePendingAtAll()
    ensures NonePending([])
  {
  }

  lemma NonePendingMore(heap: seq<Room>, room: Room)
    requires NonePending(heap) && room.releaseAt.None?
    ensures NonePending(heap + [room])
  {
  }

  /** A restart that finds its files starts with no release pending; another does nothing. */
  lemma RestartOrNot(cfg: Config, w: World, a: Action)
    requires Linked(w.st) && a.Restart?
    ensures if ListsFiles(a.ids, w.disk) then
              NonePending(Next(cfg, w, a).st.heap)
            else Next(cfg, w, a) == w
    ensures forall ref :: !Completes(cfg, w.st, a, ref)
  {
    hide RestoreAll;
    RestoredUnreleased(cfg, w.disk, a.ids, a.now);
  }

  lemma RevivedUnreleased(cfg: Config, s: RoomSnapshot, now: int)
    ensures Revived(cfg, s, now).Some? ==> Revived(cfg, s, now).value.releaseAt.None?
  {
  }

  lemma {:induction false} RestoredUnreleased(cfg: Config, disk: Disk, ids: seq<string>, now: int)
    ensures NonePending(RestoreAll(cfg, EMPTY_STATE, disk, ids, now).0.heap)
    decreases |ids|
  {
    hide Revived, NonePending;
    if ids == [] {
      assert NonePending([]) by { NonePendingAtAll(); }
    } else {
      var id, before := ids[|ids| - 1], ids[..|ids| - 1];
      RestoredUnreleased(cfg, disk, before, now);
      if id in disk && Revived(cfg, disk[id], now).Some? {
        RevivedUnreleased(cfg, disk[id], now);
        NonePendingMore(RestoreAll(cfg, EMPTY_STATE, disk, before, now).0.heap, Revived(cfg, disk[id], now).value);
      }
    }
  }

  /** In every run, restarts included, a release is pending exactly if since the start of the process a
      report has completed the two of that room, and it is for one grace period after the last that did. */
  lemma {:induction false} ReleaseExactly(cfg: Config, actions: seq<Action>, ref: nat)
    requires ref < |Run(cfg, actions).st.heap|
    ensures Run(cfg, actions).st.heap[ref].releaseAt ==
              match Completion(cfg, actions, ref)
              case None => None
              case Some(t) => Some(t + cfg.peerConnectedGrace)
    decreases |actions|
  {
    hide Next, Completes, WorldOk, ListsFiles;
    if actions != [] {
      var before, a := actions[..|actions| - 1], actions[|actions| - 1];
      var w := Run(cfg, before);
      EveryRunIsOk(cfg, before);
      if a.Restart? {
        RestartOrNot(cfg, w, a);
        if !ListsFiles(a.ids, w.disk) {
          ReleaseExactly(cfg, before, ref);
        }
      } else if ref < |w.st.heap| {
        NextTimes(cfg, w, a, ref);
        ReleaseExactly(cfg, before, ref);
      } else {
        NextAdds(cfg, w, a);
        NotYetCompleted(cfg, before, ref);
        NobodyThere(cfg, w.st, a, ref);
      }
    }
  }

  lemma NobodyThere(cfg: Config, st: State, a: Action, ref: nat)
    requires ref >= |st.heap|
    ensures !Completes(cfg, st, a, ref)
  {
  }

  ghost predicate BothReported(st: State, ref: nat) {
    ref < |st.heap| && st.heap[ref].host.reportedConnected && st.heap[ref].guest.reportedConnected
  }

  ghost predicate ReportedAt(cfg: Config, actions: seq<Action>, ref: nat, k: nat)
    requires k <= |actions|
  {
    BothReported(Run(cfg, actions[..k]).st, ref)
  }

  /** Once, in the course of the run, both sides had reported. */
  ghost predicate EverReported(cfg: Config, actions: seq<Action>, ref: nat) {
    exists k: nat :: k <= |actions| && ReportedAt(cfg, actions, ref, k)
  }

  ghost predicate NeverRestarted(actions: seq<Action>) {
    forall k :: 0 <= k < |actions| ==> !actions[k].Restart?
  }

  /** As long as the process is not restarted, a release is pending exactly if releasing is configured and
      at some time both sides had reported. */
  lemma {:induction false} ReleasedWhenBothReport(cfg: Config, actions: seq<Action>, ref: nat)
    requires ref < |Run(cfg, actions).st.heap| && NeverRestarted(actions)
    ensures Run(cfg, actions).st.heap[ref].releaseAt.Some? <==>
              cfg.releaseSockets && EverReported(cfg, actions, ref)
    decreases |actions|
  {
    hide Next, Completes, WorldOk, BothReported;
    if actions != [] {
      var n := |actions| - 1;
      var before, a := actions[..n], actions[n];
      var w := Run(cfg, before);
      EveryRunIsOk(cfg, before);
      EverLonger(cfg, actions, ref);
      if ref < |w.st.heap| {
        ReleasedWhenBothReport(cfg, before, ref);
        NextTimes(cfg, w, a, ref);
        NextReported(cfg, w, a, ref);
        if BothReported(w.st, ref) {
          NowIsEver(cfg, before, ref);
        }
      } else {
        NextAdds(cfg, w, a);
        assert !BothReported(Run(cfg, actions).st, ref) by { UntoldIsUnreported(Run(cfg, actions).st, ref); }
        NeverThere(cfg, before, ref);
      }
    }
  }

  lemma NowIsEver(cfg: Config, actions: seq<Action>, ref: nat)
    requires BothReported(Run(cfg, actions).st, ref)
    ensures EverReported(cfg, actions, ref)
  {
    hide Run, BothReported;
    assert actions[..|actions|] == actions;
    assert ReportedAt(cfg, actions, ref, |actions|);
  }

  lemma UntoldIsUnreported(st: State, ref: nat)
    requires ref < |st.heap| && Untold(st.heap[ref])
    ensures !BothReported(st, ref)
  {
  }

  lemma EverLonger(cfg: Config, actions: seq<Action>, ref: nat)
    requires actions != []
    ensures EverReported(cfg, actions, ref) <==>
              EverReported(cfg, actions[..|actions| - 1], ref) || BothReported(Run(cfg, actions).st, ref)
  {
    hide Run, BothReported;
    var before := actions[..|actions| - 1];
    if BothReported(Run(cfg, actions).st, ref) {
      NowIsEver(cfg, actions, ref);
    }
    if EverReported(cfg, before, ref) {
      var k: nat :| k <= |before| && ReportedAt(cfg, before, ref, k);
      assert before[..k] == actions[..k];
      assert ReportedAt(cfg, actions, ref, k);
    }
    if EverReported(cfg, actions, ref) {
      var k: nat :| k <= |actions| && ReportedAt(cfg, actions, ref, k);
      if k < |actions| {
        assert before[..k] == actions[..k];
        assert ReportedAt(cfg, before, ref, k);
      } else {
        assert actions[..k] == actions;
      }
    }
  }

  /** A room that is not there yet has never been. */
  lemma {:induction false} NeverThere(cfg: Config, actions: seq<Action>, ref: nat)
    requires ref >= |Run(cfg, actions).st.heap| && NeverRestarted(actions)
    ensures !EverReported(cfg, actions, ref)
    decreases |actions|
  {
    hide Next;
    if actions == [] {
      assert actions[..0] == [];
    } else {
      var before, a := actions[..|actions| - 1], actions[|actions| - 1];
      EveryRunIsOk(cfg, before);
      NextAdds(cfg, Run(cfg, before), a);
      NeverThere(cfg, before, ref);
      EverLonger(cfg, actions, ref);
    }
  }

  /** Both have reported after a step only if they had before, or the step completes the two. */
  lemma NextReported(cfg: Config, w: World, a: Action, ref: nat)
    requires WorldOk(cfg, w) && !a.Restart? && ref < |w.st.heap|
    ensures var st' := Next(cfg, w, a).st;
            && (cfg.releaseSockets && BothReported(st', ref) ==>
                  BothReported(w.st, ref) || Completes(cfg, w.st, a, ref))
            && (Completes(cfg, w.st, a, ref) ==> cfg.releaseSockets && BothReported(st', ref))
  {
    hide Next, Occupancy, Memory, Renewed, WorldOk;
    NextSlots(cfg, w, a, ref, Host);
    NextSlots(cfg, w, a, ref, Guest);
    var room, room' := w.st.heap[ref], Next(cfg, w, a).st.heap[ref];
    SlotReported(cfg, w, a, ref, Host, room'.At(Host));
    SlotReported(cfg, w, a, ref, Guest, room'.At(Guest));
    assert Host.Other() == Guest && Guest.Other() == Host;
  }

  lemma SlotReported(cfg: Config, w: World, a: Action, ref: nat, role: Role, slot': Slot)
    requires Linked(w.st) && ref < |w.st.heap| && Memory(cfg, w, a, ref, role, slot')
    ensures slot'.reportedConnected <==>
              && !Renewed(cfg, w, a, ref, role)
              && (w.st.heap[ref].At(role).reportedConnected || Reports(w.st, a, ref, role))
    ensures a.PeerConnected? ==> !Renewed(cfg, w, a, ref, role)
  {
    hide ToldIn, SentIn, ComesBack, Room.At;
  }
}
