/** Sweeping and shutting down: many rooms evicted one after the other. */
module RoomSweep {
  import opened Options
  import opened Sequences
  import opened LruSpec
  import opened Tombstone
  import opened RoomModel
  import opened RoomInvariants

  /** Why a room has to go, if it has to: what its connections are told and how they are closed. */
  type Cause = Room -> Option<(Msg, CloseCode)>

  function DueAt(now: int): Cause {
    (room: Room) => DueFor(room, now)
  }

  function ShuttingDownAll(): Cause {
    (room: Room) => Some((ServerShutdown, ShuttingDown))
  }

  /** Nothing a connection is told on its way out is a signal. */
  ghost predicate Quiet(cause: Cause) {
    forall room :: cause(room).Some? ==> !cause(room).value.0.Heard?
  }

  function EvictFor(st: State, ref: nat, cause: Cause): State
    requires ref < |st.heap|
  {
    match cause(st.heap[ref])
    case None => st
    case Some((msg, code)) => Evict(st, ref, msg, code)
  }

  function EvictAll(st: State, refs: seq<nat>, cause: Cause): (st': State)
    requires forall i :: 0 <= i < |refs| ==> refs[i] < |st.heap|
    ensures |st'.heap| == |st.heap|
  {
    if refs == [] then st
    else EvictFor(EvictAll(st, refs[..|refs| - 1], cause), refs[|refs| - 1], cause)
  }

  ghost predicate Registered(rooms: map<string, nat>, ref: nat) {
    exists id :: id in rooms && rooms[id] == ref
  }

  /** The registered rooms, each once, in some order. */
  ghost predicate Lists(refs: seq<nat>, rooms: map<string, nat>) {
    && Distinct(refs)
    && (forall i :: 0 <= i < |refs| ==> Registered(rooms, refs[i]))
    && (forall id :: id in rooms ==> rooms[id] in refs)
  }

  function Gone(room: Room, cause: Cause): Room {
    match cause(room)
    case None => room
    case Some((msg, code)) => ClearIn(room, msg)
  }

  ghost predicate Leaving(st: State, refs: seq<nat>, cause: Cause, id: string)
    requires id in st.rooms && st.rooms[id] < |st.heap|
  {
    st.rooms[id] in refs && cause(st.heap[st.rooms[id]]).Some?
  }

  /** Exactly the rooms with a cause are cleared and taken off the register. */
  ghost predicate Evicted(st: State, st': State, refs: seq<nat>, cause: Cause)
    requires Linked(st)
  {
    && |st'.heap| == |st.heap| && st'.sessions == st.sessions && st'.tomb == st.tomb
    && (forall ref :: 0 <= ref < |st.heap| ==>
          st'.heap[ref] == if ref in refs then Gone(st.heap[ref], cause) else st.heap[ref])
    && (forall id :: id in st'.rooms <==> id in st.rooms && !Leaving(st, refs, cause, id))
    && (forall id :: id in st'.rooms ==> st'.rooms[id] == st.rooms[id])
  }

  lemma {:induction false} EvictAllEffect(cfg: Config, births: Births, st: State, refs: seq<nat>, cause: Cause)
    requires Inv(cfg, births, st) && Distinct(refs)
    requires forall i :: 0 <= i < |refs| ==> Registered(st.rooms, refs[i])
    ensures forall i :: 0 <= i < |refs| ==> refs[i] < |st.heap|
    ensures Inv(cfg, births, EvictAll(st, refs, cause))
    ensures Evicted(st, EvictAll(st, refs, cause), refs, cause)
    decreases |refs|
  {
    hide Core, Entombed, Evict, Evicted;
    forall i | 0 <= i < |refs|
      ensures refs[i] < |st.heap|
    {
    }
    if refs == [] {
      assert Evicted(st, st, [], cause) by { NoneEvicted(st, cause); }
    } else {
      var before, ref := refs[..|refs| - 1], refs[|refs| - 1];
      EvictAllEffect(cfg, births, st, before, cause);
      var st1 := EvictAll(st, before, cause);
      EvictedOneMore(cfg, births, st, st1, before, ref, cause);
      assert before + [ref] == refs;
    }
  }

  lemma NoneEvicted(st: State, cause: Cause)
    requires Linked(st)
    ensures Evicted(st, st, [], cause)
  {
  }

  lemma EvictedOneMore(cfg: Config, births: Births, st: State, st1: State, refs: seq<nat>, ref: nat, cause: Cause)
    requires Inv(cfg, births, st) && Inv(cfg, births, st1) && Evicted(st, st1, refs, cause)
    requires ref !in refs && Registered(st.rooms, ref)
    ensures ref < |st1.heap|
    ensures Inv(cfg, births, EvictFor(st1, ref, cause))
    ensures Evicted(st, EvictFor(st1, ref, cause), refs + [ref], cause)
  {
    hide Fits, Held, Entombed, Evict, ClearIn, Evicted;
    var id :| id in st.rooms && st.rooms[id] == ref;
    assert st.heap[ref].roomID == id && |st1.heap| == |st.heap| && st1.heap[ref] == st.heap[ref] by {
      StillThere(st, st1, refs, ref, cause);
    }
    if cause(st.heap[ref]).Some? {
      var (msg, code) := cause(st.heap[ref]).value;
      EvictKeeps(cfg, births, st1, ref, msg, code);
      FewerEntombed(cfg, st1.tomb, st1.rooms.Keys, st1.rooms.Keys - {id});
      EvictRooms(st1, ref, msg, code);
    }
    forall d | d in st.rooms && st.rooms[d] == ref
      ensures d == id
    {
      assert st.heap[st.rooms[d]].roomID == d;
    }
    EvictedExtends(st, st1, EvictFor(st1, ref, cause), refs, ref, id, cause);
  }

  lemma StillThere(st: State, st1: State, refs: seq<nat>, ref: nat, cause: Cause)
    requires Linked(st) && Evicted(st, st1, refs, cause) && ref !in refs && ref < |st.heap|
    ensures |st1.heap| == |st.heap| && st1.heap[ref] == st.heap[ref]
  {
  }

  lemma EvictedExtends(st: State, st1: State, st2: State, refs: seq<nat>, ref: nat, id: string, cause: Cause)
    requires Linked(st) && forall d :: d in st.rooms && st.rooms[d] == ref ==> d == id
    requires Evicted(st, st1, refs, cause) && ref !in refs && id in st.rooms && st.rooms[id] == ref
    requires st2.heap == st1.heap[ref := Gone(st.heap[ref], cause)]
    requires st2.rooms == (if cause(st.heap[ref]).Some? then st1.rooms - {id} else st1.rooms)
    requires st2.sessions == st1.sessions && st2.tomb == st1.tomb
    ensures Evicted(st, st2, refs + [ref], cause)
  {
    hide Gone, Leaving;
    forall d | d in st.rooms
      ensures d in st2.rooms <==> !Leaving(st, refs + [ref], cause, d)
    {
      LeavingMore(st, refs, ref, id, cause, d);
    }
  }

  lemma LeavingMore(st: State, refs: seq<nat>, ref: nat, id: string, cause: Cause, d: string)
    requires Linked(st) && d in st.rooms && id in st.rooms && st.rooms[id] == ref && ref !in refs
    requires st.rooms[d] == ref ==> d == id
    ensures Leaving(st, refs + [ref], cause, d) <==>
              Leaving(st, refs, cause, d) || (d == id && cause(st.heap[ref]).Some?)
  {
  }

  lemma EvictRooms(st: State, ref: nat, msg: Msg, code: CloseCode)
    requires ref < |st.heap|
    ensures Evict(st, ref, msg, code).rooms == st.rooms - {st.heap[ref].roomID}
  {
    if st.heap[ref].roomID !in st.rooms {
      assert st.rooms - {st.heap[ref].roomID} == st.rooms;
    }
  }

  /** One pass of the sweep over a listing of the registered rooms. */
  function SweepOnceStep(cfg: Config, st: State, refs: seq<nat>, now: int): State
    requires forall i :: 0 <= i < |refs| ==> refs[i] < |st.heap|
  {
    EvictAll(st.(tomb := Live(st.tomb, now, cfg.tombstoneTtl)), refs, DueAt(now))
  }

  ghost predicate DueNow(room: Room, now: int) {
    || room.expiresAt <= now
    || (room.releaseAt.Some? && room.releaseAt.value <= now)
    || (room.peerDeadlineAt.Some? && room.peerDeadlineAt.value <= now)
  }

  /** After a sweep at now nothing registered is due, nothing that was not due has been touched, and
      what was due has no connection left. */
  lemma SweepLeavesNothingDue(cfg: Config, births: Births, st: State, refs: seq<nat>, now: int)
    requires Inv(cfg, births, st) && Lists(refs, st.rooms)
    ensures forall i :: 0 <= i < |refs| ==> refs[i] < |st.heap|
    ensures var st' := SweepOnceStep(cfg, st, refs, now);
            && Inv(cfg, births, st')
            && (forall id :: id in st'.rooms <==> id in st.rooms && !DueNow(st.heap[st.rooms[id]], now))
            && (forall id :: id in st'.rooms ==>
                  st'.rooms[id] == st.rooms[id] && st'.heap[st'.rooms[id]] == st.heap[st.rooms[id]])
            && (forall id :: id in st'.rooms ==> !DueNow(st'.heap[st'.rooms[id]], now))
            && (forall id :: id in st.rooms ==>
                  st'.heap[st.rooms[id]] == Gone(st.heap[st.rooms[id]], DueAt(now)))
            && (forall id :: id in st.rooms && id !in st'.rooms ==>
                  var room := st'.heap[st.rooms[id]]; room.host.conn.None? && room.guest.conn.None?)
            && (forall id :: Resident(st'.tomb, id) ==> !Expired(Lookup(st'.tomb, id).value, now, cfg.tombstoneTtl))
  {
    hide Fits, Held, Numbered, Entombed, Live, Lookup, EvictAll, Registered;
    var swept := st.(tomb := Live(st.tomb, now, cfg.tombstoneTtl));
    SweepKeeps(cfg, st.tomb, st.rooms.Keys, now);
    EntombedLive(cfg, st.tomb, st.rooms.Keys, now);
    EvictAllEffect(cfg, births, swept, refs, DueAt(now));
    var st' := SweepOnceStep(cfg, st, refs, now);
    DueIsCaused(now);
    forall id | id in st.rooms
      ensures id in st'.rooms <==> !DueNow(st.heap[st.rooms[id]], now)
    {
      assert Leaving(swept, refs, DueAt(now), id) <==> DueNow(st.heap[st.rooms[id]], now);
    }
  }

  lemma EntombedLive(cfg: Config, tomb: seq<(string, Entry)>, ids: set<string>, now: int)
    requires Entombed(cfg, tomb, ids)
    ensures var live := Live(tomb, now, cfg.tombstoneTtl);
            forall id :: Resident(live, id) ==> !Expired(Lookup(live, id).value, now, cfg.tombstoneTtl)
  {
    hide Live, Lookup;
    LiveLookup(tomb, now, cfg.tombstoneTtl);
  }

  lemma DueIsCaused(now: int)
    ensures forall room :: DueAt(now)(room).Some? <==> DueNow(room, now)
    ensures Quiet(DueAt(now))
  {
  }

  /** After a shutdown nothing is registered or counted, and no connection is held. */
  lemma ShutdownEmpties(cfg: Config, births: Births, st: State, refs: seq<nat>)
    requires Inv(cfg, births, st) && Lists(refs, st.rooms)
    ensures forall i :: 0 <= i < |refs| ==> refs[i] < |st.heap|
    ensures var st' := EvictAll(st, refs, ShuttingDownAll());
            && Inv(cfg, births, st') && st'.rooms == map[] && st'.roomsGlobal == 0
            && st'.tomb == st.tomb
            && (forall id :: id in st.rooms ==>
                  var room := st'.heap[st.rooms[id]]; room.host.conn.None? && room.guest.conn.None?)
  {
    hide Fits, Held, Entombed, EvictAll, Registered;
    EvictAllEffect(cfg, births, st, refs, ShuttingDownAll());
    var st' := EvictAll(st, refs, ShuttingDownAll());
    forall id | id in st.rooms
      ensures id !in st'.rooms && st'.heap[st.rooms[id]] == ClearIn(st.heap[st.rooms[id]], ServerShutdown)
    {
      assert Leaving(st, refs, ShuttingDownAll(), id);
    }
    assert st'.rooms.Keys == {};
  }
}
