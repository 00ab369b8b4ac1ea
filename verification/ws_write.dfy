/** The write half of a WebSocket connection: a non-blocking fast path, a pending buffer behind it,
    and a flush goroutine that owns the socket through a flag instead of the lock. */
module WsWrite {
  import opened WsFrame

  const MAX_PENDING_BYTES: nat := 512 * 1024

  datatype Sent = Accepted | ConnClosed | BufferFull | WriteError

  /** What the lock guards, and the bytes the socket has taken so far. */
  datatype Wire = Wire(out: seq<Byte>, flushing: bool, closed: bool, wire: seq<Byte>)

  function Max(a: nat, b: nat): nat {
    if a < b then b else a
  }

  // ---------------------------------------------------------------- critical sections

  /** Sending frame b when the socket, if it is asked, takes n bytes and then fails or fills up. */
  function Send(w: Wire, b: seq<Byte>, n: nat, fails: bool): (Wire, Sent)
    requires n <= |b|
  {
    if w.closed then (w, ConnClosed)
    else if w.flushing || w.out != [] then
      if |w.out| + |b| > MAX_PENDING_BYTES then (w, BufferFull) else (w.(out := w.out + b), Accepted)
    else
      var w' := w.(wire := w.wire + b[..n]);
      if fails then (w', WriteError)
      else if n < |b| then (w'.(out := b[n..], flushing := true), Accepted)
      else (w', Accepted)
  }

  function StartsFlusher(w: Wire, b: seq<Byte>, n: nat, fails: bool): bool {
    !w.closed && !w.flushing && w.out == [] && !fails && n < |b|
  }

  /** The head of the flush loop: leave, or take the whole pending buffer. */
  function Take(w: Wire): (Wire, bool) {
    if w.closed || w.out == [] then (w.(flushing := false), false) else (w.(out := []), true)
  }

  function GiveUp(w: Wire): Wire {
    w.(flushing := false, out := [])
  }

  function MarkClosed(w: Wire): Wire {
    w.(closed := true, out := [])
  }

  // ---------------------------------------------------------------- the connection

  /** What one non-blocking write system call returns. */
  datatype SysWrite = Wrote(n: nat) | Interrupted | WouldBlock | Broken

  class WriteSide {
    const hasFd: bool
    var out: seq<Byte>
    var flushing: bool
    var closed: bool
    var wire: seq<Byte>
    var closeCalled: bool

    ghost function View(): Wire
      reads this
    {
      Wire(out, flushing, closed, wire)
    }

    constructor (hasFd: bool)
      ensures this.hasFd == hasFd && View() == Wire([], false, false, []) && !closeCalled
    {
      this.hasFd := hasFd;
      out, flushing, closed, wire, closeCalled := [], false, false, [], false;
    }

    /** Writes as much of b as the socket takes without blocking; a schedule of system calls that
        runs out is a socket that would block. */
    method TryWrite(b: seq<Byte>, calls: seq<SysWrite>) returns (n: nat, fails: bool)
      modifies this`wire
      ensures n <= |b| && wire == old(wire) + b[..n]
      ensures fails ==> n < |b| && Broken in calls
      ensures !hasFd ==> n == 0 && !fails
    {
      n, fails := 0, false;
      if !hasFd {
        return;
      }
      var i := 0;
      while n < |b| && i < |calls|
        invariant n <= |b| && i <= |calls| && wire == old(wire) + b[..n]
        decreases |calls| - i
      {
        var call := calls[i];
        i := i + 1;
        match call {
          case Wrote(k) =>
            if k == 0 {
              return;
            }
            var taken := if k < |b| - n then k else |b| - n;
            assert b[..n] + b[n..n + taken] == b[..n + taken];
            wire := wire + b[n..n + taken];
            n := n + taken;
          case Interrupted =>
          case WouldBlock =>
            return;
          case Broken =>
            return n, true;
        }
      }
    }

    method WriteBytes(b: seq<Byte>, calls: seq<SysWrite>) returns (sent: Sent, n: nat, fails: bool, spawn: bool)
      modifies this`out, this`flushing, this`wire
      ensures n <= |b| && (fails ==> n < |b|)
      ensures (View(), sent) == Send(old(View()), b, n, fails)
      ensures spawn == StartsFlusher(old(View()), b, n, fails)
    {
      n, fails, spawn := 0, false, false;
      if closed {
        return ConnClosed, n, fails, spawn;
      }
      if flushing || |out| > 0 {
        if |out| + |b| > MAX_PENDING_BYTES {
          return BufferFull, n, fails, spawn;
        }
        out := out + b;
        return Accepted, n, fails, spawn;
      }
      n, fails := TryWrite(b, calls);
      if fails {
        return WriteError, n, fails, spawn;
      }
      if n < |b| {
        out := out + b[n..];
        assert out == b[n..];
        flushing, spawn := true, true;
      }
      return Accepted, n, fails, spawn;
    }

    method FlushTake() returns (buf: seq<Byte>, more: bool)
      modifies this
      ensures (View(), more) == Take(old(View()))
      ensures more ==> buf == old(out)
    {
      if closed || |out| == 0 {
        flushing := false;
        return [], false;
      }
      buf, out := out, [];
      more := true;
    }

    method FlushFailed()
      modifies this
      ensures View() == GiveUp(old(View()))
    {
      flushing := false;
      out := [];
    }

    /** Closes once: a close frame if it can still be sent, and then no more of anything. Between the
        two the lock is free; the interleavings below take them as two steps. */
    method Close(frame: seq<Byte>, calls: seq<SysWrite>) returns (n: nat, fails: bool, spawn: bool)
      modifies this
      ensures closeCalled && n <= |frame|
      ensures old(closeCalled) ==> View() == old(View()) && !spawn
      ensures !old(closeCalled) ==>
                && View() == MarkClosed(Send(old(View()), frame, n, fails).0)
                && spawn == StartsFlusher(old(View()), frame, n, fails)
    {
      n, fails, spawn := 0, false, false;
      if closeCalled {
        return;
      }
      closeCalled := true;
      var _, taken, failed, started := WriteBytes(frame, calls);
      n, fails, spawn := taken, failed, started;
      closed := true;
      out := [];
    }
  }

  // ---------------------------------------------------------------- every interleaving

  /** Where one flush goroutine is: at the loop head, inside the blocking write with bytes left to
      go, between that write's error and the lock, or gone. */
  datatype Pc = AtTop | Writing(left: seq<Byte>) | Failing | Exited

  /** The connection, its flush goroutines, and the history: every byte of every accepted frame,
      the longest such frame, and whether a frame has been cut short: a direct write failed part of the
      way, or the flusher's write failed. */
  datatype State = State(w: Wire, flushers: seq<Pc>, accepted: seq<Byte>, largest: nat, torn: bool)

  const INIT := State(Wire([], false, false, []), [], [], 0, false)

  datatype Action =
    | SendFrame(b: seq<Byte>, n: nat, fails: bool)
    | FlushTop(i: nat)
    | FlushProgress(i: nat, k: nat)
    | FlushError(i: nat)
    | FlushRelease(i: nat)
    | CloseConn

  predicate Enabled(s: State, a: Action) {
    match a
    case SendFrame(b, n, fails) => n <= |b| && (fails ==> n < |b|)
    case FlushTop(i) => i < |s.flushers| && s.flushers[i].AtTop?
    case FlushProgress(i, k) => i < |s.flushers| && s.flushers[i].Writing? && k <= |s.flushers[i].left|
    case FlushError(i) => i < |s.flushers| && s.flushers[i].Writing?
    case FlushRelease(i) => i < |s.flushers| && s.flushers[i].Failing?
    case CloseConn => true
  }

  function Next(s: State, a: Action): State
    requires Enabled(s, a)
  {
    match a
    case SendFrame(b, n, fails) =>
      var (w, sent) := Send(s.w, b, n, fails);
      var s' := s.(w := w, flushers := if StartsFlusher(s.w, b, n, fails) then s.flushers + [AtTop] else s.flushers);
      if sent.Accepted? then s'.(accepted := s.accepted + b, largest := Max(s.largest, |b|))
      else if sent.WriteError? && n > 0 then s'.(torn := true)
      else s'
    case FlushTop(i) =>
      var (w, more) := Take(s.w);
      s.(w := w, flushers := s.flushers[i := if more then Writing(s.w.out) else Exited])
    case FlushProgress(i, k) =>
      var left := s.flushers[i].left;
      s.(w := s.w.(wire := s.w.wire + left[..k]),
         flushers := s.flushers[i := if k == |left| then AtTop else Writing(left[k..])])
    case FlushError(i) => s.(flushers := s.flushers[i := Failing], torn := true)
    case FlushRelease(i) => s.(w := GiveUp(s.w), flushers := s.flushers[i := Exited])
    case CloseConn => s.(w := MarkClosed(s.w))
  }

  ghost predicate Possible(s: State, run: seq<Action>)
    decreases |run|
  {
    run == [] || (Enabled(s, run[0]) && Possible(Next(s, run[0]), run[1..]))
  }

  function After(s: State, run: seq<Action>): State
    requires Possible(s, run)
    decreases |run|
  {
    if run == [] then s else After(Next(s, run[0]), run[1..])
  }

  // ---------------------------------------------------------------- the invariant

  predicate Active(s: State, i: int) {
    0 <= i < |s.flushers| && !s.flushers[i].Exited?
  }

  ghost predicate OneFlusher(s: State) {
    && (forall i, j :: Active(s, i) && Active(s, j) ==> i == j)
    && (s.w.flushing <==> exists i :: Active(s, i))
  }

  ghost predicate PendingHasFlusher(s: State) {
    && (!s.w.closed && s.w.out != [] ==> s.w.flushing)
    && (s.w.closed ==> s.w.out == [])
    && |s.w.out| <= Max(MAX_PENDING_BYTES, s.largest)
  }

  ghost predicate NoneWriting(s: State) {
    forall i :: Active(s, i) ==> s.flushers[i].AtTop?
  }

  ghost predicate Prefix(a: seq<Byte>, b: seq<Byte>) {
    a <= b
  }

  /** The socket, what the flusher holds and the pending buffer together are the accepted frames;
      once closed, the first two still are a prefix of them. */
  ghost predicate InOrder(s: State) {
    !s.torn ==>
      && (forall i :: Active(s, i) ==> !s.flushers[i].Failing?)
      && (NoneWriting(s) ==>
            if s.w.closed then Prefix(s.w.wire, s.accepted) else s.w.wire + s.w.out == s.accepted)
      && (forall i :: Active(s, i) && s.flushers[i].Writing? ==>
            if s.w.closed then Prefix(s.w.wire + s.flushers[i].left, s.accepted)
            else s.w.wire + s.flushers[i].left + s.w.out == s.accepted)
  }

  ghost predicate Inv(s: State) {
    OneFlusher(s) && PendingHasFlusher(s) && InOrder(s)
  }

  lemma InitInv()
    ensures Inv(INIT)
  {
  }

  lemma SameFlushers(s: State, s': State)
    requires s'.flushers == s.flushers
    ensures forall i :: Active(s', i) == Active(s, i)
    ensures (exists i :: Active(s', i)) == (exists i :: Active(s, i))
    ensures NoneWriting(s') == NoneWriting(s)
  {
    if exists i :: Active(s, i) {
      var i :| Active(s, i);
      assert Active(s', i);
    }
    forall i
      ensures Active(s', i) == Active(s, i)
    {
    }
  }

  lemma SendKeepsFlusher(s: State, b: seq<Byte>, n: nat, fails: bool)
    requires Enabled(s, SendFrame(b, n, fails)) && Inv(s)
    ensures var s' := Next(s, SendFrame(b, n, fails)); OneFlusher(s') && PendingHasFlusher(s')
  {
    var s' := Next(s, SendFrame(b, n, fails));
    if StartsFlusher(s.w, b, n, fails) {
      forall i
        ensures Active(s', i) <==> i == |s.flushers|
      {
        assert !Active(s, i);
      }
      assert Active(s', |s.flushers|);
    } else {
      SameFlushers(s, s');
    }
  }

  lemma SendKeepsOrder(s: State, b: seq<Byte>, n: nat, fails: bool)
    requires Enabled(s, SendFrame(b, n, fails)) && Inv(s)
    ensures InOrder(Next(s, SendFrame(b, n, fails)))
  {
    var s' := Next(s, SendFrame(b, n, fails));
    assert b[..n] + b[n..] == b;
    if s'.torn || s' == s {
    } else if StartsFlusher(s.w, b, n, fails) {
      assert NoneWriting(s);
      assert s.w.wire + b == s.w.wire + b[..n] + b[n..];
      assert s.accepted == s.w.wire + s.w.out == s.w.wire;
    } else {
      assert forall i :: Active(s', i) == Active(s, i) && (Active(s, i) ==> s'.flushers[i] == s.flushers[i]);
      if s.w.flushing || s.w.out != [] {
        if NoneWriting(s) {
          assert s.w.wire + (s.w.out + b) == s.accepted + b;
        } else {
          forall i | Active(s', i) && s'.flushers[i].Writing?
            ensures s'.w.wire + s'.flushers[i].left + s'.w.out == s'.accepted
          {
            assert s.w.wire + s.flushers[i].left + (s.w.out + b) == (s.w.wire + s.flushers[i].left + s.w.out) + b;
          }
        }
      } else {
        assert NoneWriting(s);
        assert b[..n] == b && s.accepted == s.w.wire + s.w.out == s.w.wire;
        assert s'.w.wire + [] == s'.accepted;
      }
    }
  }

  /** A step of an active goroutine i: there was no other, and i itself is all that may be left. */
  lemma Alone(s: State, i: nat, s': State, pc: Pc)
    requires OneFlusher(s) && Active(s, i) && s'.flushers == s.flushers[i := pc]
    ensures s.w.flushing
    ensures forall j :: Active(s', j) <==> j == i && !pc.Exited?
    ensures (exists j :: Active(s', j)) == !pc.Exited?
    ensures NoneWriting(s') == (pc.Exited? || pc.AtTop?)
  {
    forall j
      ensures Active(s', j) <==> j == i && !pc.Exited?
    {
      assert Active(s, j) ==> j == i;
    }
    if !pc.Exited? {
      assert Active(s', i);
    }
  }

  lemma FlushKeepsInv(s: State, a: Action)
    requires Inv(s) && Enabled(s, a) && (a.FlushTop? || a.FlushError? || a.FlushRelease?)
    ensures Inv(Next(s, a))
  {
    assert Active(s, a.i);
    Alone(s, a.i, Next(s, a), Next(s, a).flushers[a.i]);
  }

  lemma ProgressKeepsInv(s: State, i: nat, k: nat)
    requires Inv(s) && Enabled(s, FlushProgress(i, k))
    ensures Inv(Next(s, FlushProgress(i, k)))
  {
    var s' := Next(s, FlushProgress(i, k));
    var left := s.flushers[i].left;
    assert Active(s, i);
    Alone(s, i, s', s'.flushers[i]);
    assert left == left[..k] + left[k..];
    assert s.w.wire + left == s'.w.wire + left[k..];
    if k == |left| {
      assert left[k..] == [] && s'.w.wire + [] == s'.w.wire;
    }
  }

  lemma CloseKeepsInv(s: State)
    requires Inv(s)
    ensures Inv(Next(s, CloseConn))
  {
    var s' := Next(s, CloseConn);
    SameFlushers(s, s');
    if !s.torn && !s.w.closed && NoneWriting(s) {
      assert s.w.wire <= s.w.wire + s.w.out;
    }
    forall i | !s.torn && !s.w.closed && Active(s', i) && s'.flushers[i].Writing?
      ensures Prefix(s'.w.wire + s'.flushers[i].left, s'.accepted)
    {
      assert Active(s, i);
      assert s.w.wire + s.flushers[i].left <= s.w.wire + s.flushers[i].left + s.w.out;
    }
  }

  lemma NextKeepsInv(s: State, a: Action)
    requires Inv(s) && Enabled(s, a)
    ensures Inv(Next(s, a))
  {
    hide Next, Inv;
    match a
    case SendFrame(b, n, fails) =>
      SendKeepsFlusher(s, b, n, fails);
      SendKeepsOrder(s, b, n, fails);
      JoinInv(Next(s, a));
    case FlushProgress(i, k) => ProgressKeepsInv(s, i, k);
    case CloseConn => CloseKeepsInv(s);
    case FlushTop(_) => FlushKeepsInv(s, a);
    case FlushError(_) => FlushKeepsInv(s, a);
    case FlushRelease(_) => FlushKeepsInv(s, a);
  }

  lemma JoinInv(s: State)
    requires OneFlusher(s) && PendingHasFlusher(s) && InOrder(s)
    ensures Inv(s)
  {
  }

  /** Every reachable state, whatever the interleaving of senders, flushers and Close. */
  lemma {:induction false} Reachable(s: State, run: seq<Action>)
    requires Inv(s) && Possible(s, run)
    ensures Inv(After(s, run))
    decreases |run|
  {
    hide Inv, Next;
    if run != [] {
      NextKeepsInv(s, run[0]);
      Reachable(Next(s, run[0]), run[1..]);
    }
  }

  // ---------------------------------------------------------------- what that means

  /** Until a frame is cut short, the peer reads a prefix of the accepted frames, and all of them once
      the connection is idle and open. */
  lemma PeerReadsAcceptedFrames(run: seq<Action>)
    requires Possible(INIT, run)
    ensures var s := After(INIT, run);
            && (!s.torn ==> s.w.wire <= s.accepted)
            && (!s.torn && !s.w.closed && !s.w.flushing ==> s.w.wire == s.accepted)
            && (!s.w.closed && s.w.out != [] ==> s.w.flushing)
            && |s.w.out| <= Max(MAX_PENDING_BYTES, s.largest)
            && (forall i, j :: Active(s, i) && Active(s, j) ==> i == j)
  {
    InitInv();
    Reachable(INIT, run);
    var s := After(INIT, run);
    if !s.torn {
      InvPrefix(s);
    }
  }

  /** Only the one flusher touches the socket while the flag is up, and nobody but a sender does
      while it is down; either way bytes are only ever appended. */
  lemma SocketHasOneWriter(s: State, a: Action)
    requires Inv(s) && Enabled(s, a)
    ensures var s' := Next(s, a);
            && s.w.wire <= s'.w.wire
            && (s'.w.wire != s.w.wire ==>
                  if s.w.flushing then a.FlushProgress? && forall j :: Active(s, j) <==> j == a.i
                  else a.SendFrame? && s.w.out == [] && !s.w.closed)
  {
    if a.FlushProgress? {
      assert Active(s, a.i);
      Alone(s, a.i, s, s.flushers[a.i]);
    }
  }

  // ---------------------------------------------------------------- which frames are accepted

  /** A flush goroutine is at work. */
  ghost predicate Draining(s: State) {
    exists i :: Active(s, i)
  }

  /** The bytes that a flush goroutine has taken and not yet written. */
  ghost function Held(s: State): seq<Byte> {
    if i :| Active(s, i) && s.flushers[i].Writing? then s.flushers[i].left else []
  }

  /** The accepted bytes that neither the socket nor a flush goroutine has yet. */
  ghost function Waiting(s: State): int {
    |s.accepted| - |s.w.wire| - |Held(s)|
  }

  lemma WaitingIsPending(s: State)
    requires Inv(s) && !s.torn && !s.w.closed
    ensures Waiting(s) == |s.w.out|
  {
    if i :| Active(s, i) && s.flushers[i].Writing? {
      assert forall j :: Active(s, j) ==> j == i;
      assert |s.w.wire + s.flushers[i].left + s.w.out| == |s.accepted|;
    } else {
      assert |s.w.wire + s.w.out| == |s.accepted|;
    }
  }

  lemma {:induction false} ClosedExactly(s: State, run: seq<Action>)
    requires Possible(s, run)
    ensures After(s, run).w.closed <==> s.w.closed || CloseConn in run
    decreases |run|
  {
    if run != [] {
      assert run == [run[0]] + run[1..];
      ClosedExactly(Next(s, run[0]), run[1..]);
    }
  }

  /** What a frame is answered after any run: refused once the connection has been closed; and until a
      frame is cut short, behind a drain under way accepted if and only if what is waiting and the frame
      fit the limit, and otherwise accepted unless the socket fails. */
  lemma AcceptedExactly(run: seq<Action>, b: seq<Byte>, n: nat, fails: bool)
    requires Possible(INIT, run) && Enabled(After(INIT, run), SendFrame(b, n, fails))
    ensures var s := After(INIT, run);
            var answer := Send(s.w, b, n, fails).1;
            && (answer == ConnClosed <==> CloseConn in run)
            && (!s.torn && CloseConn !in run ==>
                  && (answer == Accepted <==> if Draining(s) then Waiting(s) + |b| <= 512 * 1024 else !fails)
                  && (answer == BufferFull <==> Draining(s) && Waiting(s) + |b| > 512 * 1024)
                  && (answer == WriteError <==> !Draining(s) && fails))
  {
    hide Next, Waiting;
    InitInv();
    Reachable(INIT, run);
    ClosedExactly(INIT, run);
    var s := After(INIT, run);
    if !s.torn && !s.w.closed {
      WaitingIsPending(s);
    }
  }

  /** An accepted frame is the next to be accepted, whole; a refused one leaves nothing behind. */
  lemma AnswersAreKept(s: State, b: seq<Byte>, n: nat, fails: bool)
    requires Enabled(s, SendFrame(b, n, fails))
    ensures var (s', answer) := (Next(s, SendFrame(b, n, fails)), Send(s.w, b, n, fails).1);
            && s'.accepted == s.accepted + (if answer == Accepted then b else [])
            && (answer == ConnClosed || answer == BufferFull ==> s' == s)
            && (answer == WriteError ==> s'.w == s.w.(wire := s.w.wire + b[..n]))
  {
    assert s.accepted + [] == s.accepted;
  }

  // ---------------------------------------------------------------- when writes fail

  /** What the socket still owes the peer, if what it holds is a prefix of the accepted frames. */
  function Owed(s: State): seq<Byte> {
    if |s.w.wire| <= |s.accepted| then s.accepted[|s.w.wire|..] else []
  }

  predicate WritesDirectly(w: Wire) {
    !w.closed && !w.flushing && w.out == []
  }

  /** The bytes that a step is about to write are the next ones owed. */
  ghost predicate WritesFit(s: State, a: Action)
    requires Enabled(s, a)
  {
    match a
    case SendFrame(b, n, fails) =>
      WritesDirectly(s.w) ==> b[..n] <= Owed(s) + if fails then [] else b
    case FlushProgress(i, k) => s.flushers[i].left[..k] <= Owed(s)
    case _ => true
  }

  lemma ExtendPrefix(wire: seq<Byte>, accepted: seq<Byte>, x: seq<Byte>, more: seq<Byte>)
    requires wire <= accepted
    ensures wire + x <= accepted + more <==> x <= accepted[|wire|..] + more
  {
    assert accepted + more == wire + (accepted[|wire|..] + more);
    if wire + x <= accepted + more {
      assert forall i :: 0 <= i < |x| ==> x[i] == (wire + x)[|wire| + i];
    }
  }

  /** In any state, whatever has failed before, a step keeps the socket's bytes a prefix of the
      accepted frames if and only if what it writes is what is owed next. */
  lemma StepKeepsPrefixExactly(s: State, a: Action)
    requires Enabled(s, a) && s.w.wire <= s.accepted
    ensures Next(s, a).w.wire <= Next(s, a).accepted <==> WritesFit(s, a)
  {
    match a
    case SendFrame(b, n, fails) =>
      ExtendPrefix(s.w.wire, s.accepted, b[..n], if fails then [] else b);
      assert s.accepted + [] == s.accepted;
    case FlushProgress(i, k) =>
      ExtendPrefix(s.w.wire, s.accepted, s.flushers[i].left[..k], []);
      assert s.accepted + [] == s.accepted && Owed(s) + [] == Owed(s);
    case _ =>
  }

  ghost predicate AlwaysPrefix(s: State, run: seq<Action>)
    requires Possible(s, run)
    decreases |run|
  {
    s.w.wire <= s.accepted && (run == [] || AlwaysPrefix(Next(s, run[0]), run[1..]))
  }

  ghost predicate AlwaysFits(s: State, run: seq<Action>)
    requires Possible(s, run)
    decreases |run|
  {
    run == [] || (WritesFit(s, run[0]) && AlwaysFits(Next(s, run[0]), run[1..]))
  }

  /** So over a whole run the peer always reads a prefix if and only if every write fits. */
  lemma {:induction false} RunKeepsPrefixExactly(s: State, run: seq<Action>)
    requires Possible(s, run) && s.w.wire <= s.accepted
    ensures AlwaysPrefix(s, run) <==> AlwaysFits(s, run)
    decreases |run|
  {
    hide Next, WritesFit;
    if run != [] {
      StepKeepsPrefixExactly(s, run[0]);
      if WritesFit(s, run[0]) {
        RunKeepsPrefixExactly(Next(s, run[0]), run[1..]);
      }
    }
  }

  /** Before a frame is cut short every write fits, except the one that cuts it: a direct write that
      fails, just when it has written something. */
  lemma UncutWritesFit(s: State, a: Action)
    requires Inv(s) && Enabled(s, a) && !s.torn
    ensures s.w.wire <= s.accepted
    ensures WritesFit(s, a) <==> !(a.SendFrame? && a.fails && a.n > 0 && WritesDirectly(s.w))
  {
    InvPrefix(s);
    match a
    case SendFrame(b, n, fails) =>
      if WritesDirectly(s.w) {
        assert NoneWriting(s);
        assert s.w.wire + [] == s.accepted && Owed(s) == [];
        assert b[..n] <= [] + b;
      }
    case FlushProgress(i, k) =>
      var left := s.flushers[i].left;
      assert Active(s, i);
      assert left == left[..k] + left[k..];
      if !s.w.closed {
        assert s.accepted == s.w.wire + (left + s.w.out);
        assert left[..k] <= left + s.w.out == Owed(s);
      } else {
        ExtendPrefix(s.w.wire, s.accepted, left, []);
        assert s.accepted + [] == s.accepted && Owed(s) + [] == Owed(s);
      }
    case _ =>
  }

  lemma InvPrefix(s: State)
    requires Inv(s) && !s.torn
    ensures s.w.wire <= s.accepted
  {
    if !NoneWriting(s) {
      var i :| Active(s, i) && s.flushers[i].Writing?;
      assert s.w.wire <= s.w.wire + s.flushers[i].left;
    }
  }

  /** A direct write that fails leaves the stream a prefix exactly when it had written nothing. */
  lemma FailedSendKeepsPrefix(s: State, b: seq<Byte>, n: nat)
    requires Inv(s) && !s.torn && WritesDirectly(s.w) && n < |b|
    ensures var s' := Next(s, SendFrame(b, n, true)); s'.w.wire <= s'.accepted <==> n == 0
  {
    UncutWritesFit(s, SendFrame(b, n, true));
    StepKeepsPrefixExactly(s, SendFrame(b, n, true));
  }

  /** After a failed flush, what it was writing and all that was pending is never sent, so the next
      direct write keeps the prefix if and only if it starts with just those bytes. */
  lemma AfterFailedFlush(s: State, i: nat, b: seq<Byte>, n: nat)
    requires Inv(s) && !s.torn && !s.w.closed && Enabled(s, FlushError(i)) && n <= |b|
    ensures var s1 := Next(s, FlushError(i));
            var s2 := Next(s1, FlushRelease(i));
            && s2.w.wire <= s2.accepted
            && (Next(s2, SendFrame(b, n, false)).w.wire <= Next(s2, SendFrame(b, n, false)).accepted <==>
                  b[..n] <= s.flushers[i].left + s.w.out + b)
  {
    assert Active(s, i);
    InvPrefix(s);
    var left := s.flushers[i].left;
    var s2 := Next(Next(s, FlushError(i)), FlushRelease(i));
    assert s.accepted == s.w.wire + (left + s.w.out);
    assert Owed(s2) == left + s.w.out;
    StepKeepsPrefixExactly(s2, SendFrame(b, n, false));
  }

  ghost predicate Breaks(run: seq<Action>) {
    Possible(INIT, run) && !(After(INIT, run).w.wire <= After(INIT, run).accepted)
  }

  /** A frame cut short by a failing direct write, and the close frame behind it. */
  lemma CutFrameBreaks()
    ensures Breaks([SendFrame([1, 2], 1, true), SendFrame([8, 9], 2, false)])
  {
    var half, close := SendFrame([1, 2], 1, true), SendFrame([8, 9], 2, false);
    var s1 := Next(INIT, half);
    var s2 := Next(s1, close);
    assert s1.w.wire == [1] && s2.w.wire == [1] + [8, 9] && s2.accepted == [8, 9];
    assert [half, close][1..] == [close] && [close][1..] == [];
    assert Possible(s2, []) && Possible(s1, [close]) && After(s1, [close]) == s2;
    assert Possible(INIT, [half, close]) && After(INIT, [half, close]) == s2;
    assert s2.w.wire[0] != s2.accepted[0];
  }

  const QUEUED: Action := SendFrame([1, 2], 0, false)

  const CLOSE_FRAME: Action := SendFrame([8, 9], 2, false)

  /** A frame queued, the flusher failing on it, and the close frame in its place. */
  lemma FailedFlushBreaks()
    ensures Breaks([QUEUED, FlushTop(0), FlushError(0), FlushRelease(0), CLOSE_FRAME])
  {
    hide Next, Send, Take, GiveUp;
    var s2 := State(Wire([], true, false, []), [Writing([1, 2])], [1, 2], 2, false);
    var s4 := State(Wire([], false, false, []), [Exited], [1, 2], 2, true);
    FlushStarts();
    FlushFails();
    PossibleStep(s4, CLOSE_FRAME, []);
    PossibleStep(Next(s2, FlushError(0)), FlushRelease(0), [CLOSE_FRAME]);
    PossibleStep(s2, FlushError(0), [FlushRelease(0), CLOSE_FRAME]);
    PossibleStep(Next(INIT, QUEUED), FlushTop(0), [FlushError(0), FlushRelease(0), CLOSE_FRAME]);
    PossibleStep(INIT, QUEUED, [FlushTop(0), FlushError(0), FlushRelease(0), CLOSE_FRAME]);
    assert [FlushTop(0)] + [FlushError(0), FlushRelease(0), CLOSE_FRAME]
        == [FlushTop(0), FlushError(0), FlushRelease(0), CLOSE_FRAME];
    assert [FlushError(0)] + [FlushRelease(0), CLOSE_FRAME] == [FlushError(0), FlushRelease(0), CLOSE_FRAME];
    assert [FlushRelease(0)] + [CLOSE_FRAME] == [FlushRelease(0), CLOSE_FRAME];
    assert [CLOSE_FRAME] + [] == [CLOSE_FRAME];
    assert [QUEUED] + [FlushTop(0), FlushError(0), FlushRelease(0), CLOSE_FRAME]
        == [QUEUED, FlushTop(0), FlushError(0), FlushRelease(0), CLOSE_FRAME];
  }

  lemma FlushStarts()
    ensures var s1 := Next(INIT, QUEUED);
            && Enabled(INIT, QUEUED) && Enabled(s1, FlushTop(0))
            && Next(s1, FlushTop(0)) == State(Wire([], true, false, []), [Writing([1, 2])], [1, 2], 2, false)
  {
    assert [1, 2][0..] == [1, 2];
    assert Next(INIT, QUEUED).flushers == [AtTop];
  }

  lemma FlushFails()
    ensures var s2 := State(Wire([], true, false, []), [Writing([1, 2])], [1, 2], 2, false);
            var s4 := State(Wire([], false, false, []), [Exited], [1, 2], 2, true);
            var s5 := Next(s4, CLOSE_FRAME);
            && Enabled(s2, FlushError(0)) && Enabled(Next(s2, FlushError(0)), FlushRelease(0))
            && Next(Next(s2, FlushError(0)), FlushRelease(0)) == s4
            && Enabled(s4, CLOSE_FRAME) && !(s5.w.wire <= s5.accepted)
  {
    var s4 := State(Wire([], false, false, []), [Exited], [1, 2], 2, true);
    var s5 := Next(s4, CLOSE_FRAME);
    assert s5.w.wire == [] + [8, 9] && s5.accepted == [1, 2] + [8, 9];
    assert s5.w.wire[0] != s5.accepted[0];
  }

  lemma PossibleStep(s: State, a: Action, run: seq<Action>)
    requires Enabled(s, a) && Possible(Next(s, a), run)
    ensures Possible(s, [a] + run) && After(s, [a] + run) == After(Next(s, a), run)
  {
    assert ([a] + run)[1..] == run;
  }

  /** Either kind of write error can leave the peer with bytes that are no prefix of the frames. */
  lemma BrokenStreamRuns()
    ensures exists run: seq<Action> :: Breaks(run) && |run| > 0 && run[0].SendFrame? && run[0].fails
    ensures exists run: seq<Action> :: Breaks(run) && |run| > 2 && run[2].FlushError?
  {
    CutFrameBreaks();
    FailedFlushBreaks();
  }
}
