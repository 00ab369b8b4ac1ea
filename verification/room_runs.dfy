/** Whole runs of the registry: any interleaving of handlers, sweeps, flushes to disk and restarts,
    with any clock. */
module RoomRuns {
  import opened Tombstone
  import opened RoomModel
  import opened RoomRules
  import opened RoomInvariants
  import opened RoomSweep

  /** The memory of the process, the tokens its secret has signed, the disk, and the host tokens of
      the creations so far. */
  datatype World = World(st: State, tokens: set<Token>, disk: Disk, births: Births)

  const EMPTY_WORLD: World := World(EMPTY_STATE, {}, map[], {})

  datatype Action =
    | CreateRoom(c: Conn, create: CreateRequest, now: int)
    | JoinRoom(c: Conn, join: JoinRequest, now: int)
    | RejoinRoom(c: Conn, rejoin: RejoinRequest, now: int)
    | SendSignal(c: Conn, seqNo: int, wellFormed: bool, data: string, now: int)
    | PeerConnected(c: Conn, now: int)
    | CloseRoom(c: Conn, now: int)
    | Detach(c: Conn, now: int)
    | SweepRoom(ref: nat, now: int)
    | SweepTombstones(now: int)
    | ShutDownRoom(ref: nat)
    | FlushSave(id: string)
    | FlushDelete(id: string)
    | SpoilFile(id: string, garbage: RoomSnapshot)
    | Restart(ids: seq<string>, now: int)

  /** A signature that was never made does not verify. */
  function Checked(tokens: set<Token>, q: RejoinRequest): RejoinRequest {
    if q.credential.Verified? && q.credential.token !in tokens then q.(credential := Unverified) else q
  }

  predicate ListsFiles(ids: seq<string>, disk: Disk) {
    (forall i, j :: 0 <= i < j < |ids| ==> ids[i] != ids[j]) && (forall id :: id in disk ==> id in ids)
  }

  /** A listing that misses a file or names one twice, and a reference to no room, do nothing. */
  function Next(cfg: Config, w: World, a: Action): World
    requires Linked(w.st)
  {
    match a
    case CreateRoom(c, q, now) =>
      var (st, reply) := CreateStep(cfg, w.st, c, q, now);
      if reply.Created?
      then w.(st := st, tokens := w.tokens + {reply.token}, births := w.births + {reply.token})
      else w.(st := st)
    case JoinRoom(c, q, now) =>
      var (st, reply) := JoinStep(cfg, w.st, c, q, now);
      if reply.Joined? then w.(st := st, tokens := w.tokens + {reply.token}) else w.(st := st)
    case RejoinRoom(c, q, now) => w.(st := RejoinStep(cfg, w.st, c, Checked(w.tokens, q), now).0)
    case SendSignal(c, seqNo, wellFormed, data, now) =>
      w.(st := SignalStep(cfg, w.st, c, seqNo, wellFormed, data, now).0)
    case PeerConnected(c, now) => w.(st := ReportStep(cfg, w.st, c, now).0)
    case CloseRoom(c, now) => w.(st := CloseStep(cfg, w.st, c, now).0)
    case Detach(c, now) => w.(st := DetachStep(cfg, w.st, c, now))
    case SweepRoom(ref, now) => if ref < |w.st.heap| then w.(st := EvictFor(w.st, ref, DueAt(now))) else w
    case SweepTombstones(now) => w.(st := w.st.(tomb := Live(w.st.tomb, now, cfg.tombstoneTtl)))
    case ShutDownRoom(ref) => if ref < |w.st.heap| then w.(st := EvictFor(w.st, ref, ShuttingDownAll())) else w
    case FlushSave(id) =>
      if id in w.st.rooms then w.(disk := w.disk[id := Marshal(w.st.heap[w.st.rooms[id]])])
      else w.(disk := w.disk - {id})
    case FlushDelete(id) => w.(disk := w.disk - {id})
    case SpoilFile(id, garbage) => if Unmarshal(garbage).None? then w.(disk := w.disk[id := garbage]) else w
    case Restart(ids, now) =>
      if ListsFiles(ids, w.disk) then
        var (st, disk) := RestoreAll(cfg, EMPTY_STATE, w.disk, ids, now);
        w.(st := st, disk := disk)
      else w
  }

  // ---------------------------------------------------------------- what every step keeps

  ghost predicate TokensOk(births: Births, tokens: set<Token>) {
    births <= tokens && forall t :: t in tokens ==> TokenBorn(births, t)
  }

  ghost predicate WorldOk(cfg: Config, w: World)
    ensures WorldOk(cfg, w) ==> Linked(w.st)
  {
    assert Inv(cfg, w.births, w.st) ==> Linked(w.st) by {
      if Inv(cfg, w.births, w.st) { InvLinked(cfg, w.births, w.st); }
    }
    Inv(cfg, w.births, w.st) && TokensOk(w.births, w.tokens) && DiskOk(cfg, w.births, w.disk)
  }

  lemma EvictForKeeps(cfg: Config, births: Births, st: State, ref: nat, cause: Cause)
    requires Inv(cfg, births, st) && ref < |st.heap|
    ensures Inv(cfg, births, EvictFor(st, ref, cause))
  {
    hide Core, Entombed, Evict;
    if cause(st.heap[ref]).Some? {
      var (msg, code) := cause(st.heap[ref]).value;
      EvictKeeps(cfg, births, st, ref, msg, code);
      FewerEntombed(cfg, st.tomb, st.rooms.Keys, st.rooms.Keys - {st.heap[ref].roomID});
    }
  }

  lemma BornLater(cfg: Config, births: Births, later: Births, disk: Disk)
    requires births <= later && DiskOk(cfg, births, disk)
    ensures DiskOk(cfg, later, disk)
  {
    hide RoomOk;
  }

  lemma DiskMore(cfg: Config, births: Births, disk: Disk, id: string, s: RoomSnapshot)
    requires DiskOk(cfg, births, disk) && SnapshotOk(cfg, births, id, s)
    ensures DiskOk(cfg, births, disk[id := s])
  {
    hide RoomOk;
    var more := disk[id := s];
    forall d | d in more
      ensures SnapshotOk(cfg, births, d, more[d])
    {
      assert d != id ==> SnapshotOk(cfg, births, d, disk[d]);
    }
  }

  lemma SaveKeeps(cfg: Config, w: World, id: string)
    requires WorldOk(cfg, w) && id in w.st.rooms
    ensures DiskOk(cfg, w.births, w.disk[id := Marshal(w.st.heap[w.st.rooms[id]])])
  {
    hide RoomOk, Held, Entombed, TokensOk;
    var room := w.st.heap[w.st.rooms[id]];
    FitsAt(cfg, w.births, w.st.heap, w.st.sessions, w.st.rooms[id]);
    SnapshotKeepsRoom(cfg, room);
    DiskMore(cfg, w.births, w.disk, id, Marshal(room));
  }

  lemma NextKeeps(cfg: Config, w: World, a: Action)
    requires WorldOk(cfg, w)
    ensures WorldOk(cfg, Next(cfg, w, a))
  {
    hide Inv, TokensOk, DiskOk, CreateStep, JoinStep, RejoinStep, SignalStep, ReportStep, CloseStep, DetachStep,
         EvictFor, Live, RestoreAll, TokenDated;
    match a
    case CreateRoom(c, q, now) =>
      CreateKeeps(cfg, w.births, w.st, c, q, now);
      var reply := CreateStep(cfg, w.st, c, q, now).1;
      if reply.Created? {
        BornLater(cfg, w.births, w.births + {reply.token}, w.disk);
        TokensBorn(w.births, w.tokens, reply.token);
      }
    case JoinRoom(c, q, now) =>
      JoinKeeps(cfg, w.births, w.st, c, q, now);
      var reply := JoinStep(cfg, w.st, c, q, now).1;
      if reply.Joined? {
        TokensMore(w.births, w.tokens, reply.token);
      }
    case RejoinRoom(c, q, now) =>
      CheckedOk(w.births, w.tokens, q);
      RejoinKeeps(cfg, w.births, w.st, c, Checked(w.tokens, q), now);
    case SendSignal(c, seqNo, wellFormed, data, now) =>
      SignalKeeps(cfg, w.births, w.st, c, seqNo, wellFormed, data, now);
    case PeerConnected(c, now) =>
      ReportKeeps(cfg, w.births, w.st, c, now);
    case CloseRoom(c, now) =>
      CloseStepKeeps(cfg, w.births, w.st, c, now);
    case Detach(c, now) =>
      DetachKeeps(cfg, w.births, w.st, c, now);
    case SweepRoom(ref, now) =>
      if ref < |w.st.heap| {
        EvictForKeeps(cfg, w.births, w.st, ref, DueAt(now));
      }
    case SweepTombstones(now) =>
      TombsKeep(cfg, w.births, w.st, now);
    case ShutDownRoom(ref) =>
      if ref < |w.st.heap| {
        EvictForKeeps(cfg, w.births, w.st, ref, ShuttingDownAll());
      }
    case FlushSave(id) =>
      if id in w.st.rooms {
        SaveKeeps(cfg, w, id);
      } else {
        DiskLess(cfg, w.births, w.disk, id);
      }
    case FlushDelete(id) =>
      DiskLess(cfg, w.births, w.disk, id);
    case SpoilFile(id, garbage) =>
      if Unmarshal(garbage).None? {
        DiskMore(cfg, w.births, w.disk, id, garbage);
      }
    case Restart(ids, now) =>
      if ListsFiles(ids, w.disk) {
        RestoreKeeps(cfg, w.births, w.disk, ids, now);
      }
  }

  lemma TokensMore(births: Births, tokens: set<Token>, t: Token)
    requires TokensOk(births, tokens) && TokenBorn(births, t)
    ensures TokensOk(births, tokens + {t})
  {
    hide TokenDated;
  }

  lemma TokensBorn(births: Births, tokens: set<Token>, t: Token)
    requires TokensOk(births, tokens) && TokenDated(t) && t.role.Host?
    ensures TokensOk(births + {t}, tokens + {t})
  {
    hide TokenDated;
    assert t.(role := Host) == t;
  }

  lemma CheckedOk(births: Births, tokens: set<Token>, q: RejoinRequest)
    requires TokensOk(births, tokens)
    ensures var q' := Checked(tokens, q);
            q'.credential.Verified? ==> TokenBorn(births, q'.credential.token)
  {
    hide TokenDated;
  }

  lemma TombsKeep(cfg: Config, births: Births, st: State, now: int)
    requires Inv(cfg, births, st)
    ensures Inv(cfg, births, st.(tomb := Live(st.tomb, now, cfg.tombstoneTtl)))
  {
    hide Fits, Held, Numbered, Entombed, Live;
    SweepKeeps(cfg, st.tomb, st.rooms.Keys, now);
  }

  lemma NothingIsOk(cfg: Config)
    ensures WorldOk(cfg, EMPTY_WORLD)
  {
    hide RoomOk;
  }

  /** The world after a run, from a fresh start. */
  ghost function Run(cfg: Config, actions: seq<Action>): (w: World)
    ensures Linked(w.st)
    decreases |actions|, 0
  {
    if actions == [] then EMPTY_WORLD
    else
      var w := Run(cfg, actions[..|actions| - 1]);
      EveryRunIsOk(cfg, actions[..|actions| - 1]);
      NextKeeps(cfg, w, actions[|actions| - 1]);
      Next(cfg, w, actions[|actions| - 1])
  }

  /** Whatever happens, in whatever order, everything that a step keeps holds. */
  lemma {:induction false} EveryRunIsOk(cfg: Config, actions: seq<Action>)
    ensures WorldOk(cfg, Run(cfg, actions))
    decreases |actions|, 1
  {
    hide WorldOk, Next;
    if actions == [] {
      NothingIsOk(cfg);
    } else {
      EveryRunIsOk(cfg, actions[..|actions| - 1]);
      NextKeeps(cfg, Run(cfg, actions[..|actions| - 1]), actions[|actions| - 1]);
    }
  }
}
