/** The batching persister: save and delete requests are queued, coalesced by room and flushed in
    whatever order a map is iterated. What reaches the disk is what the requests, obeyed one by
    one in arrival order, would have left there. */
module Persister {
  import opened Options

  const QUEUE_CAPACITY: nat := 4096

  datatype Kind = SaveRoom | DeleteRoom

  datatype Op = Op(room: string, kind: Kind)

  type Data = seq<char>

  type Disk = map<string, Data>

  /** What the rooms in memory serialize to at the time of a flush; None for a room that is gone. */
  type Memory = string -> Option<Data>

  /** Requests obeyed together, and the memory they were obeyed against. */
  datatype Batch = Batch(ops: seq<Op>, memory: Memory)

  // ---------------------------------------------------------------- one by one

  function Obey(disk: Disk, op: Op, memory: Memory): Disk {
    match (op.kind, memory(op.room))
    case (SaveRoom, Some(data)) => disk[op.room := data]
    case (_, _) => disk - {op.room}
  }

  function ObeyAll(disk: Disk, ops: seq<Op>, memory: Memory): Disk {
    if ops == [] then disk else Obey(ObeyAll(disk, ops[..|ops| - 1], memory), ops[|ops| - 1], memory)
  }

  function ObeyBatches(disk: Disk, batches: seq<Batch>): Disk {
    if batches == [] then disk
    else
      var last := batches[|batches| - 1];
      ObeyAll(ObeyBatches(disk, batches[..|batches| - 1]), last.ops, last.memory)
  }

  function OpsOf(batches: seq<Batch>): seq<Op> {
    if batches == [] then [] else OpsOf(batches[..|batches| - 1]) + batches[|batches| - 1].ops
  }

  // ---------------------------------------------------------------- coalesced

  /** The latest request for each room. */
  function Coalesce(ops: seq<Op>): map<string, Kind> {
    if ops == [] then map[]
    else Coalesce(ops[..|ops| - 1])[ops[|ops| - 1].room := ops[|ops| - 1].kind]
  }

  ghost predicate Saved(pending: map<string, Kind>, memory: Memory, room: string) {
    room in pending && pending[room].SaveRoom? && memory(room).Some?
  }

  /** The disk after a coalesced flush, room by room. */
  ghost predicate FlushedTo(before: Disk, after: Disk, pending: map<string, Kind>, memory: Memory) {
    forall room ::
      && (room in after <==> if room in pending then Saved(pending, memory, room) else room in before)
      && (room in after ==> after[room] == if room in pending then memory(room).value else before[room])
  }

  lemma {:induction false} CoalescedIsOneByOne(disk: Disk, ops: seq<Op>, memory: Memory)
    ensures FlushedTo(disk, ObeyAll(disk, ops, memory), Coalesce(ops), memory)
  {
    if ops != [] {
      CoalescedIsOneByOne(disk, ops[..|ops| - 1], memory);
    }
  }

  lemma FlushedIsUnique(before: Disk, one: Disk, two: Disk, pending: map<string, Kind>, memory: Memory)
    requires FlushedTo(before, one, pending, memory) && FlushedTo(before, two, pending, memory)
    ensures one == two
  {
    forall room
      ensures room in one <==> room in two
      ensures room in one ==> one[room] == two[room]
    {
    }
  }

  lemma NothingFlushed(disk: Disk, memory: Memory)
    ensures FlushedTo(disk, disk, map[], memory)
  {
  }

  lemma NothingCoalesced()
    ensures Coalesce([]) == map[]
  {
  }

  /** Obeying the request of a room not yet flushed extends a partial flush by that room. */
  lemma FlushedOneMore(before: Disk, disk: Disk, done: map<string, Kind>, op: Op, memory: Memory)
    requires FlushedTo(before, disk, done, memory)
    ensures FlushedTo(before, Obey(disk, op, memory), done[op.room := op.kind], memory)
  {
  }

  /** Any order of the coalesced requests leaves what obeying every request in turn leaves. */
  lemma FlushedIsOneByOne(before: Disk, after: Disk, ops: seq<Op>, memory: Memory)
    requires FlushedTo(before, after, Coalesce(ops), memory)
    ensures after == ObeyAll(before, ops, memory)
  {
    CoalescedIsOneByOne(before, ops, memory);
    FlushedIsUnique(before, after, ObeyAll(before, ops, memory), Coalesce(ops), memory);
  }

  /** The state a room ends in: what the last batch that mentions it says, or what it was. */
  function Verdict(disk: Disk, batches: seq<Batch>, room: string): Option<Data> {
    if batches == [] then if room in disk then Some(disk[room]) else None
    else
      var last := batches[|batches| - 1];
      var kinds := Coalesce(last.ops);
      if room !in kinds then Verdict(disk, batches[..|batches| - 1], room)
      else if kinds[room].SaveRoom? then last.memory(room)
      else None
  }

  lemma {:induction false} LastRequestDecides(disk: Disk, batches: seq<Batch>, room: string)
    ensures var after := ObeyBatches(disk, batches);
            Verdict(disk, batches, room) == if room in after then Some(after[room]) else None
  {
    if batches != [] {
      var last := batches[|batches| - 1];
      LastRequestDecides(disk, batches[..|batches| - 1], room);
      CoalescedIsOneByOne(ObeyBatches(disk, batches[..|batches| - 1]), last.ops, last.memory);
    }
  }

  // ---------------------------------------------------------------- the persister

  /** What happens while the flush goroutine runs: a request arrives, or it wakes up to receive one, on
      its ticker or to stop, and memory is what it finds there if it then flushes. */
  datatype Wake = Arrive(op: Op) | Receive(memory: Memory) | Tick(memory: Memory) | Stop(memory: Memory)

  /** Requests queued, received since the last flush, and flushed, batch by batch. */
  datatype Progress = Progress(queue: seq<Op>, current: seq<Op>, flushed: seq<Batch>, stopped: bool)

  function FlushAll(p: Progress, memory: Memory): Progress {
    p.(flushed := p.flushed + [Batch(p.current, memory)], current := [])
  }

  function Woken(p: Progress, w: Wake, batchSize: int): Progress {
    if p.stopped then p
    else
      match w
      case Arrive(op) => if |p.queue| < QUEUE_CAPACITY then p.(queue := p.queue + [op]) else p
      case Receive(memory) =>
        if p.queue == [] then p
        else
          var q := p.(queue := p.queue[1..], current := p.current + [p.queue[0]]);
          if |Coalesce(q.current)| >= batchSize then FlushAll(q, memory) else q
      case Tick(memory) => if |Coalesce(p.current)| > 0 then FlushAll(p, memory) else p
      case Stop(memory) => FlushAll(p.(queue := [], current := p.current + p.queue, stopped := true), memory)
  }

  function WokenAll(p: Progress, wakes: seq<Wake>, batchSize: int): Progress {
    if wakes == [] then p
    else Woken(WokenAll(p, wakes[..|wakes| - 1], batchSize), wakes[|wakes| - 1], batchSize)
  }

  /** The requests that find room in the queue. */
  function Admitted(p: Progress, wakes: seq<Wake>, batchSize: int): seq<Op> {
    if wakes == [] then []
    else
      var last, before := wakes[|wakes| - 1], WokenAll(p, wakes[..|wakes| - 1], batchSize);
      Admitted(p, wakes[..|wakes| - 1], batchSize)
      + if !before.stopped && last.Arrive? && |before.queue| < QUEUE_CAPACITY then [last.op] else []
  }

  function Everything(p: Progress): seq<Op> {
    OpsOf(p.flushed) + p.current + p.queue
  }

  lemma FlushKeepsAll(p: Progress, memory: Memory)
    ensures Everything(FlushAll(p, memory)) == Everything(p)
  {
    var q := FlushAll(p, memory);
    assert q.flushed[..|q.flushed| - 1] == p.flushed;
    assert OpsOf(q.flushed) + [] == OpsOf(p.flushed) + p.current;
  }

  lemma WokenKeepsAll(p: Progress, w: Wake, batchSize: int)
    ensures Everything(Woken(p, w, batchSize)) ==
              Everything(p) + if !p.stopped && w.Arrive? && |p.queue| < QUEUE_CAPACITY then [w.op] else []
  {
    hide OpsOf, Coalesce, FlushAll;
    assert Everything(p) + [] == Everything(p);
    match w
    case Arrive(op) =>
      assert OpsOf(p.flushed) + p.current + (p.queue + [op]) == Everything(p) + [op];
    case Receive(memory) =>
      if p.queue != [] {
        var q := p.(queue := p.queue[1..], current := p.current + [p.queue[0]]);
        assert p.queue == [p.queue[0]] + q.queue;
        assert Everything(q) == Everything(p);
        FlushKeepsAll(q, memory);
      }
    case Tick(memory) =>
      FlushKeepsAll(p, memory);
    case Stop(memory) =>
      var q := p.(queue := [], current := p.current + p.queue, stopped := true);
      assert Everything(q) == Everything(p);
      FlushKeepsAll(q, memory);
  }

  lemma {:induction false} AdmittedKept(p: Progress, wakes: seq<Wake>, batchSize: int)
    ensures Everything(WokenAll(p, wakes, batchSize)) == Everything(p) + Admitted(p, wakes, batchSize)
    decreases |wakes|
  {
    hide Everything, Woken;
    if wakes == [] {
      assert Everything(p) + [] == Everything(p);
    } else {
      AdmittedKept(p, wakes[..|wakes| - 1], batchSize);
      WokenKeepsAll(WokenAll(p, wakes[..|wakes| - 1], batchSize), wakes[|wakes| - 1], batchSize);
    }
  }

  ghost predicate SomeStop(wakes: seq<Wake>) {
    exists i :: 0 <= i < |wakes| && wakes[i].Stop?
  }

  lemma SomeStopMore(wakes: seq<Wake>, w: Wake)
    ensures SomeStop(wakes + [w]) <==> SomeStop(wakes) || w.Stop?
  {
    if SomeStop(wakes) {
      var i :| 0 <= i < |wakes| && wakes[i].Stop?;
      assert (wakes + [w])[i].Stop?;
    }
    if w.Stop? {
      assert (wakes + [w])[|wakes|].Stop?;
    }
  }

  lemma {:induction false} StopsOnStop(p: Progress, wakes: seq<Wake>, batchSize: int)
    requires !p.stopped
    ensures var q := WokenAll(p, wakes, batchSize);
            (q.stopped <==> SomeStop(wakes)) && (q.stopped ==> q.queue == [] && q.current == [])
    decreases |wakes|
  {
    hide Coalesce, SomeStop;
    if wakes == [] {
      assert !SomeStop([]) by { NoStop(); }
    } else {
      var n := |wakes| - 1;
      StopsOnStop(p, wakes[..n], batchSize);
      assert wakes[..n] + [wakes[n]] == wakes;
      SomeStopMore(wakes[..n], wakes[n]);
    }
  }

  lemma NoStop()
    ensures !SomeStop([])
  {
  }

  /** Whatever the schedule, the requests flushed, received and queued are those there were and those
      admitted since, in order; once stopped, all of them have been flushed. */
  lemma NothingIsForgotten(p: Progress, wakes: seq<Wake>, batchSize: int)
    requires !p.stopped
    ensures var q := WokenAll(p, wakes, batchSize);
            && Everything(q) == Everything(p) + Admitted(p, wakes, batchSize)
            && (q.stopped <==> SomeStop(wakes))
            && (q.stopped ==> OpsOf(q.flushed) == Everything(p) + Admitted(p, wakes, batchSize))
  {
    hide WokenAll, Admitted, OpsOf, SomeStop;
    AdmittedKept(p, wakes, batchSize);
    StopsOnStop(p, wakes, batchSize);
    var q := WokenAll(p, wakes, batchSize);
    assert OpsOf(q.flushed) + [] + [] == OpsOf(q.flushed);
  }

  lemma StoppedStays(p: Progress, wakes: seq<Wake>, i: nat, batchSize: int)
    requires i <= |wakes| && WokenAll(p, wakes[..i], batchSize).stopped
    ensures WokenAll(p, wakes, batchSize) == WokenAll(p, wakes[..i], batchSize)
    decreases |wakes|
  {
    if i == |wakes| {
      assert wakes[..i] == wakes;
    } else {
      assert wakes[..|wakes| - 1][..i] == wakes[..i];
      StoppedStays(p, wakes[..|wakes| - 1], i, batchSize);
    }
  }

  class Persister {
    const batchSize: int
    var queue: seq<Op>
    var pending: map<string, Kind>
    var disk: Disk
    /** Everything accepted, the part of it flushed, batch by batch, and the disk at the start. */
    ghost var accepted: seq<Op>
    ghost var flushed: seq<Batch>
    ghost var current: seq<Op>
    ghost const initial: Disk

    ghost predicate Valid()
      reads this
    {
      && |queue| <= QUEUE_CAPACITY
      && pending == Coalesce(current)
      && accepted == OpsOf(flushed) + current + queue
      && disk == ObeyBatches(initial, flushed)
    }

    ghost function View(stopped: bool): Progress
      reads this
    {
      Progress(queue, current, flushed, stopped)
    }

    constructor (batchSize: int, disk: Disk)
      ensures Valid() && this.disk == initial == disk && queue == [] && pending == map[] && accepted == []
      ensures this.batchSize == batchSize
    {
      this.batchSize, this.disk, initial := batchSize, disk, disk;
      queue, pending, accepted, flushed, current := [], map[], [], [], [];
    }

    /** Queues a request without blocking; a full queue drops it. */
    method Mark(op: Op) returns (queued: bool)
      requires Valid()
      modifies this`queue, this`accepted
      ensures Valid() && queued == (|old(queue)| < QUEUE_CAPACITY)
      ensures accepted == if queued then old(accepted) + [op] else old(accepted)
      ensures queue == if queued then old(queue) + [op] else old(queue)
    {
      queued := |queue| < QUEUE_CAPACITY;
      if queued {
        queue := queue + [op];
        accepted := accepted + [op];
        assert OpsOf(flushed) + current + (old(queue) + [op]) == (OpsOf(flushed) + current + old(queue)) + [op];
      }
    }

    /** Obeys the coalesced requests in an arbitrary order. */
    method Flush(memory: Memory)
      requires Valid()
      modifies this`disk, this`pending, this`flushed, this`current
      ensures Valid() && pending == map[] && current == []
      ensures flushed == old(flushed) + [Batch(old(current), memory)]
    {
      hide FlushedTo, ObeyAll, ObeyBatches, Coalesce, OpsOf;
      ghost var before := disk;
      var rest := pending;
      NothingFlushed(disk, memory);
      assert pending - rest.Keys == map[];
      while rest != map[]
        modifies this`disk
        invariant rest.Keys <= pending.Keys && forall room :: room in rest ==> rest[room] == pending[room]
        invariant FlushedTo(before, disk, pending - rest.Keys, memory)
        decreases rest.Keys
      {
        var room :| room in rest;
        ghost var was, done := disk, pending - rest.Keys;
        match rest[room] {
          case DeleteRoom =>
            disk := disk - {room};
          case SaveRoom =>
            var data := memory(room);
            if data.None? {
              disk := disk - {room};
            } else {
              disk := disk[room := data.value];
            }
        }
        FlushedOneMore(before, was, done, Op(room, rest[room]), memory);
        rest := rest - {room};
        assert pending - rest.Keys == done[room := pending[room]];
      }
      assert pending - rest.Keys == pending;
      FlushedIsOneByOne(before, disk, current, memory);
      Batched(current, memory);
      NothingCoalesced();
      pending, current := map[], [];
    }

    ghost method Batched(ops: seq<Op>, memory: Memory)
      requires disk == ObeyAll(ObeyBatches(initial, flushed), ops, memory)
      modifies this`flushed
      ensures flushed == old(flushed) + [Batch(ops, memory)]
      ensures disk == ObeyBatches(initial, flushed) && OpsOf(flushed) == OpsOf(old(flushed)) + ops
    {
      ghost var longer := flushed + [Batch(ops, memory)];
      assert longer[..|longer| - 1] == flushed;
      flushed := longer;
    }

    method Absorb()
      requires Valid() && queue != []
      modifies this`queue, this`pending, this`current
      ensures Valid() && queue == old(queue)[1..] && current == old(current) + [old(queue)[0]]
    {
      var e := queue[0];
      queue := queue[1..];
      pending := pending[e.room := e.kind];
      ghost var longer := current + [e];
      assert longer[..|longer| - 1] == current;
      assert OpsOf(flushed) + current + ([e] + queue) == OpsOf(flushed) + longer + queue;
      assert [e] + queue == old(queue);
      current := longer;
    }

    /** The flush goroutine: batches on size, on the ticker, and drains everything when stopped. What
        it flushes, and against which memory, is what the wakes say; Valid ties the disk to it. */
    method Loop(wakes: seq<Wake>)
      requires Valid()
      modifies this
      ensures Valid()
      ensures var p := WokenAll(old(View(false)), wakes, batchSize); View(p.stopped) == p
      ensures |old(pending)| < batchSize ==> |pending| < batchSize
    {
      hide ObeyAll, ObeyBatches, Coalesce, OpsOf, Woken;
      ghost var start := View(false);
      var i := 0;
      while i < |wakes|
        invariant i <= |wakes| && Valid()
        invariant View(false) == WokenAll(start, wakes[..i], batchSize)
        invariant |old(pending)| < batchSize ==> |pending| < batchSize
      {
        assert wakes[..i + 1][..i] == wakes[..i];
        var stopped := Wakeup(wakes[i]);
        if stopped {
          StoppedStays(start, wakes, i + 1, batchSize);
          return;
        }
        i := i + 1;
      }
      assert wakes[..|wakes|] == wakes;
    }

    method Wakeup(w: Wake) returns (stopped: bool)
      requires Valid()
      modifies this
      ensures Valid() && stopped == w.Stop? && View(stopped) == Woken(old(View(false)), w, batchSize)
      ensures |old(pending)| < batchSize ==> |pending| < batchSize
    {
      hide ObeyAll, ObeyBatches, Coalesce, OpsOf;
      stopped := false;
      match w {
        case Arrive(op) =>
          var _ := Mark(op);
        case Receive(memory) =>
          if |queue| > 0 {
            Absorb();
            if |pending| >= batchSize {
              Flush(memory);
            }
          }
        case Tick(memory) =>
          if |pending| > 0 {
            Flush(memory);
          }
        case Stop(memory) =>
          Drain();
          Flush(memory);
          NothingCoalesced();
          stopped := true;
      }
    }

    /** Receives whatever is still queued. */
    method Drain()
      requires Valid()
      modifies this`queue, this`pending, this`current
      ensures Valid() && queue == [] && current == old(current) + old(queue)
    {
      hide ObeyAll, ObeyBatches, Coalesce, OpsOf;
      assert old(current) + old(queue)[..0] == old(current);
      ghost var n := 0;
      while |queue| > 0
        invariant Valid() && n <= |old(queue)| && queue == old(queue)[n..]
        invariant current == old(current) + old(queue)[..n]
        decreases |queue|
      {
        Absorb();
        assert old(queue)[..n + 1] == old(queue)[..n] + [old(queue)[n]];
        n := n + 1;
      }
      assert old(queue)[..n] == old(queue);
    }
  }
}
