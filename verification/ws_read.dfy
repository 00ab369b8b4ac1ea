/** The read half of a WebSocket connection: an incremental frame parser that keeps a leftover
    buffer between reads, unmasks payloads in place, answers control frames and reassembles
    fragmented messages (sections 5.4 and 5.5 of RFC 6455). */
module WsRead {
  import opened WsFrame

  const STATUS_NO_STATUS_RCVD: nat := 1005

  datatype Reason =
    | TooLarge
    | Protocol
    | PeerClosed(code: nat, text: seq<Byte>)
    | BinaryRejected
    | Policy
    | WriteFailed
    | ReadFailed

  /** What the read path does to the outside world, in order. A handler that closes the connection
      itself hangs up; only the first close of a connection does anything. */
  datatype Event =
    | Dispatch(message: seq<Byte>)
    | Pong(payload: seq<Byte>)
    | HangUp
    | Close(reason: Reason)

  /** The environment: whether the message handler, after the last event of a history, asks for the
      connection to be closed, or closes it itself (as closing one's own room does, or a reply that
      overflows the send buffer); and whether writing the pong that is about to follow a history fails. */
  datatype Server = Server(maxFrame: nat, closes: seq<Event> -> bool, hangs: seq<Event> -> bool,
                           pongFails: seq<Event> -> bool)

  datatype Assembly = Assembly(fragged: bool, op: Byte, msg: seq<Byte>)

  const IDLE := Assembly(false, 0, [])

  /** Still reading, with the bytes not yet parsed; or closed, with nothing left to say about them. */
  datatype Outcome = Open(asm: Assembly, log: seq<Event>, rest: seq<Byte>) | Shut(log: seq<Event>)

  function CloseReason(payload: seq<Byte>): Reason {
    if |payload| >= 2 then PeerClosed(BigEndian(payload[..2]), payload[2..])
    else PeerClosed(STATUS_NO_STATUS_RCVD, [])
  }

  function ReasonFor(e: WireError): Reason {
    if e.FrameTooLarge? then TooLarge else Protocol
  }

  predicate HungUp(log: seq<Event>) {
    HangUp in log
  }

  /** Reading stops for this reason; a connection already closed is not closed again. */
  function Ended(log: seq<Event>, reason: Reason): Outcome {
    Shut(if HungUp(log) then log else log + [Close(reason)])
  }

  /** A message is handed on. A handler that only hangs up does not stop the reading. */
  function Told(sv: Server, asm: Assembly, log: seq<Event>, message: seq<Byte>): Outcome {
    var told := log + [Dispatch(message)];
    var after := if sv.hangs(told) && !HungUp(log) then told + [HangUp] else told;
    if sv.closes(told) then Ended(after, Policy) else Open(asm, after, [])
  }

  function Dispatched(sv: Server, op: Byte, log: seq<Event>, message: seq<Byte>): Outcome {
    if op == OP_BINARY then Ended(log, BinaryRejected) else Told(sv, IDLE, log, message)
  }

  /** A ping is answered; on a closed connection the answer cannot be written. */
  function Ponged(sv: Server, asm: Assembly, log: seq<Event>, payload: seq<Byte>): Outcome {
    if HungUp(log) || sv.pongFails(log) then Ended(log, WriteFailed) else Open(asm, log + [Pong(payload)], [])
  }

  /** One complete frame. */
  function Framed(sv: Server, asm: Assembly, log: seq<Event>, h: Header, payload: seq<Byte>): (o: Outcome)
    ensures o.Open? ==> o.rest == []
  {
    if h.op == OP_PING then Ponged(sv, asm, log, payload)
    else if h.op == OP_PONG then Open(asm, log, [])
    else if h.op == OP_CLOSE then Ended(log, CloseReason(payload))
    else if h.op == OP_CONTINUATION then
      if !asm.fragged then Ended(log, Protocol)
      else if |asm.msg| + |payload| > sv.maxFrame then Ended(log, TooLarge)
      else if !h.fin then Open(asm.(msg := asm.msg + payload), log, [])
      else Dispatched(sv, asm.op, log, asm.msg + payload)
    else if h.op == OP_TEXT || h.op == OP_BINARY then
      if asm.fragged then Ended(log, Protocol)
      else if h.fin then Dispatched(sv, h.op, log, payload)
      else Open(Assembly(true, h.op, payload), log, [])
    else Ended(log, Protocol)
  }

  /** The whole stream b, parsed as if it had arrived at once. */
  function Run(sv: Server, asm: Assembly, log: seq<Event>, b: seq<Byte>): Outcome
    decreases |b|
  {
    match HeaderOf(b, sv.maxFrame)
    case Bad(e) => Ended(log, ReasonFor(e))
    case NeedMore => Open(asm, log, b)
    case Got(h, hlen) =>
      HeaderBounds(b, sv.maxFrame);
      var end := hlen + h.length;
      if end > |b| then Open(asm, log, b)
      else
        match Framed(sv, asm, log, h, Unmask(b[hlen..end], h.mask))
        case Shut(log') => Shut(log')
        case Open(asm', log', _) => Run(sv, asm', log', b[end..])
  }

  /** Bytes b arriving on a connection that has got as far as o. */
  function Feed(sv: Server, o: Outcome, b: seq<Byte>): Outcome {
    if o.Open? then Run(sv, o.asm, o.log, o.rest + b) else o
  }

  /** The next read of a connection: one that has been hung up on is not read again. */
  function FeedLive(sv: Server, o: Outcome, b: seq<Byte>): Outcome {
    if HungUp(o.log) then o else Feed(sv, o, b)
  }

  function FeedAll(sv: Server, o: Outcome, chunks: seq<seq<Byte>>): Outcome
    decreases |chunks|
  {
    if chunks == [] then o else FeedAll(sv, FeedLive(sv, o, chunks[0]), chunks[1..])
  }

  function Concat(chunks: seq<seq<Byte>>): seq<Byte> {
    if chunks == [] then [] else chunks[0] + Concat(chunks[1..])
  }

  // ---------------------------------------------------------------- one frame at a time

  /** The front of b is a whole frame. */
  ghost predicate WholeFrame(b: seq<Byte>, maxFrame: nat) {
    var r := HeaderOf(b, maxFrame);
    r.Got? && r.hlen + r.h.length <= |b|
  }

  ghost function FrameEnd(b: seq<Byte>, maxFrame: nat): (end: nat)
    requires WholeFrame(b, maxFrame)
    ensures 0 < end <= |b|
  {
    HeaderBounds(b, maxFrame);
    HeaderOf(b, maxFrame).hlen + HeaderOf(b, maxFrame).h.length
  }

  /** What the first frame of b does. */
  ghost function First(sv: Server, asm: Assembly, log: seq<Event>, b: seq<Byte>): (o: Outcome)
    requires WholeFrame(b, sv.maxFrame)
  {
    HeaderBounds(b, sv.maxFrame);
    var h, hlen := HeaderOf(b, sv.maxFrame).h, HeaderOf(b, sv.maxFrame).hlen;
    Framed(sv, asm, log, h, Unmask(b[hlen..hlen + h.length], h.mask))
  }

  lemma RunStep(sv: Server, asm: Assembly, log: seq<Event>, b: seq<Byte>)
    requires WholeFrame(b, sv.maxFrame)
    ensures Run(sv, asm, log, b) == match First(sv, asm, log, b)
                                    case Shut(l) => Shut(l)
                                    case Open(a, l, _) => Run(sv, a, l, b[FrameEnd(b, sv.maxFrame)..])
  {
  }

  lemma RunStops(sv: Server, asm: Assembly, log: seq<Event>, b: seq<Byte>)
    requires !WholeFrame(b, sv.maxFrame)
    ensures var r := HeaderOf(b, sv.maxFrame);
            Run(sv, asm, log, b) == if r.Bad? then Ended(log, ReasonFor(r.error)) else Open(asm, log, b)
  {
  }

  // ---------------------------------------------------------------- chunking independence

  /** A whole frame stays the same frame when more bytes arrive behind it. */
  lemma WholeFrameStable(sv: Server, asm: Assembly, log: seq<Event>, a: seq<Byte>, b: seq<Byte>)
    requires WholeFrame(a, sv.maxFrame)
    ensures WholeFrame(a + b, sv.maxFrame) && FrameEnd(a + b, sv.maxFrame) == FrameEnd(a, sv.maxFrame)
    ensures First(sv, asm, log, a + b) == First(sv, asm, log, a)
    ensures (a + b)[FrameEnd(a, sv.maxFrame)..] == a[FrameEnd(a, sv.maxFrame)..] + b
  {
    hide Framed, Unmask;
    HeaderPrefixStable(a, b, sv.maxFrame);
    hide HeaderOf;
    HeaderBounds(a, sv.maxFrame);
    var hlen, end := HeaderOf(a, sv.maxFrame).hlen, FrameEnd(a, sv.maxFrame);
    assert (a + b)[hlen..end] == a[hlen..end];
  }

  /** Reading a and then b is reading a + b. */
  lemma {:induction false} RunResumes(sv: Server, asm: Assembly, log: seq<Event>, a: seq<Byte>, b: seq<Byte>)
    ensures Run(sv, asm, log, a + b) == Feed(sv, Run(sv, asm, log, a), b)
    decreases |a|
  {
    hide HeaderOf, Run, First, FrameEnd;
    if WholeFrame(a, sv.maxFrame) {
      RunStep(sv, asm, log, a);
      WholeFrameStable(sv, asm, log, a, b);
      RunStep(sv, asm, log, a + b);
      var o := First(sv, asm, log, a);
      if o.Open? {
        RunResumes(sv, o.asm, o.log, a[FrameEnd(a, sv.maxFrame)..], b);
      }
    } else {
      RunStops(sv, asm, log, a);
      if HeaderOf(a, sv.maxFrame).Bad? {
        HeaderPrefixStable(a, b, sv.maxFrame);
        RunStops(sv, asm, log, a + b);
      }
    }
  }

  // ---------------------------------------------------------------- what is left over, and how big

  ghost predicate Suffix(rest: seq<Byte>, b: seq<Byte>) {
    |rest| <= |b| && rest == b[|b| - |rest|..]
  }

  lemma SuffixOfSuffix(rest: seq<Byte>, b: seq<Byte>, from: nat)
    requires from <= |b| && Suffix(rest, b[from..])
    ensures Suffix(rest, b)
  {
  }

  lemma FirstBounds(sv: Server, asm: Assembly, log: seq<Event>, b: seq<Byte>)
    requires WholeFrame(b, sv.maxFrame) && |asm.msg| <= sv.maxFrame
    ensures var o := First(sv, asm, log, b); o.Open? ==> |o.asm.msg| <= sv.maxFrame
  {
    HeaderBounds(b, sv.maxFrame);
  }

  /** Everything a connection may hold while open: the leftover is an untouched suffix of the
      input, too short for its own frame; a message in progress fits in a frame. */
  lemma {:induction false} RunBounds(sv: Server, asm: Assembly, log: seq<Event>, b: seq<Byte>)
    requires |asm.msg| <= sv.maxFrame
    ensures var o := Run(sv, asm, log, b);
            o.Open? ==>
              && Suffix(o.rest, b)
              && !WholeFrame(o.rest, sv.maxFrame)
              && |o.rest| < sv.maxFrame + MAX_HEADER
              && |o.asm.msg| <= sv.maxFrame
    decreases |b|
  {
    if WholeFrame(b, sv.maxFrame) {
      RunStep(sv, asm, log, b);
      FirstBounds(sv, asm, log, b);
      var o, end := First(sv, asm, log, b), FrameEnd(b, sv.maxFrame);
      if o.Open? {
        RunBounds(sv, o.asm, o.log, b[end..]);
        var last := Run(sv, o.asm, o.log, b[end..]);
        if last.Open? {
          SuffixOfSuffix(last.rest, b, end);
        }
      }
    } else {
      RunStops(sv, asm, log, b);
      HeaderBounds(b, sv.maxFrame);
    }
  }

  /** The parser's end offset is far from the top of a 64-bit int for any buffer that is. */
  lemma EndOffsetFits(b: seq<Byte>, off: nat, maxFrame: nat)
    requires off <= |b| && |b| + MAX_HEADER + maxFrame <= MAX_INT64
    ensures var r := HeaderOf(b[off..], maxFrame);
            r.Got? ==> off + r.hlen + r.h.length <= MAX_INT64
  {
    HeaderBounds(b[off..], maxFrame);
  }

  /** A connection is closed once. After a close by the read path there is nothing more; after a handler
      has hung up there may be messages that had already been read, and nothing else. */
  ghost predicate ClosedOnce(log: seq<Event>) {
    forall i, j :: 0 <= i < j < |log| ==> !log[i].Close? && (log[i].HangUp? ==> log[j].Dispatch?)
  }

  /** It has been closed. */
  ghost predicate Finished(log: seq<Event>) {
    HungUp(log) || (log != [] && log[|log| - 1].Close?)
  }

  ghost predicate NeverClosed(log: seq<Event>) {
    forall i :: 0 <= i < |log| ==> !log[i].Close?
  }

  lemma HungUpMore(log: seq<Event>, e: Event)
    ensures HungUp(log + [e]) <==> HungUp(log) || e.HangUp?
  {
    if HungUp(log) {
      var i :| 0 <= i < |log| && log[i] == HangUp;
      assert (log + [e])[i] == HangUp;
    }
    assert (log + [e])[|log|] == e;
  }

  lemma EndedOnce(log: seq<Event>, reason: Reason)
    requires ClosedOnce(log) && NeverClosed(log)
    ensures var o := Ended(log, reason);
            o.Shut? && log <= o.log && ClosedOnce(o.log) && Finished(o.log)
  {
  }

  lemma ToldOnce(sv: Server, asm: Assembly, log: seq<Event>, message: seq<Byte>)
    requires ClosedOnce(log) && NeverClosed(log)
    ensures var o := Told(sv, asm, log, message);
            && log <= o.log && ClosedOnce(o.log)
            && (if o.Open? then NeverClosed(o.log) else Finished(o.log))
  {
    hide HungUp;
    var told := log + [Dispatch(message)];
    HungUpMore(log, Dispatch(message));
    HungUpMore(told, HangUp);
    assert ClosedOnce(told) && NeverClosed(told);
    if sv.hangs(told) && !HungUp(log) {
      NobodyHungUp(told);
      assert ClosedOnce(told + [HangUp]);
      EndedOnce(told + [HangUp], Policy);
    } else {
      EndedOnce(told, Policy);
    }
  }

  lemma NobodyHungUp(log: seq<Event>)
    requires !HungUp(log)
    ensures forall i :: 0 <= i < |log| ==> !log[i].HangUp?
  {
  }

  lemma PongedOnce(sv: Server, asm: Assembly, log: seq<Event>, payload: seq<Byte>)
    requires ClosedOnce(log) && NeverClosed(log)
    ensures var o := Ponged(sv, asm, log, payload);
            && log <= o.log && ClosedOnce(o.log)
            && (if o.Open? then NeverClosed(o.log) else Finished(o.log))
  {
    if HungUp(log) || sv.pongFails(log) {
      EndedOnce(log, WriteFailed);
    } else {
      NobodyHungUp(log);
    }
  }

  lemma FirstCloses(sv: Server, asm: Assembly, log: seq<Event>, b: seq<Byte>)
    requires WholeFrame(b, sv.maxFrame) && ClosedOnce(log) && NeverClosed(log)
    ensures var o := First(sv, asm, log, b);
            && log <= o.log && ClosedOnce(o.log)
            && (if o.Open? then NeverClosed(o.log) else Finished(o.log))
  {
    hide HeaderOf, Unmask, Told, Ponged, Ended, ClosedOnce, NeverClosed, HungUp, Finished;
    HeaderBounds(b, sv.maxFrame);
    var h, hlen := HeaderOf(b, sv.maxFrame).h, HeaderOf(b, sv.maxFrame).hlen;
    var payload := Unmask(b[hlen..hlen + h.length], h.mask);
    PongedOnce(sv, asm, log, payload);
    ToldOnce(sv, IDLE, log, payload);
    ToldOnce(sv, IDLE, log, asm.msg + payload);
    EndedOnce(log, Protocol);
    EndedOnce(log, TooLarge);
    EndedOnce(log, BinaryRejected);
    EndedOnce(log, CloseReason(payload));
  }

  /** Histories only grow; a connection is closed once, by the read path or by a handler, and after a
      close by the read path nothing happens. */
  lemma {:induction false} CloseIsLast(sv: Server, asm: Assembly, log: seq<Event>, b: seq<Byte>)
    requires ClosedOnce(log) && NeverClosed(log)
    ensures var o := Run(sv, asm, log, b);
            && log <= o.log && ClosedOnce(o.log)
            && (if o.Open? then NeverClosed(o.log) else Finished(o.log))
    decreases |b|
  {
    hide HeaderOf, Run, First, FrameEnd, ClosedOnce, NeverClosed, HungUp, Finished;
    if WholeFrame(b, sv.maxFrame) {
      RunStep(sv, asm, log, b);
      FirstCloses(sv, asm, log, b);
      var o := First(sv, asm, log, b);
      if o.Open? {
        CloseIsLast(sv, o.asm, o.log, b[FrameEnd(b, sv.maxFrame)..]);
      }
    } else {
      RunStops(sv, asm, log, b);
      EndedOnce(log, TooLarge);
      EndedOnce(log, Protocol);
    }
  }

  // ---------------------------------------------------------------- the connection

  /** What one attempt to read the socket yields. */
  datatype Read = Data(bytes: seq<Byte>) | Again | Interrupted | Failed

  /** There is probably more to read: the buffer filled up, or the read was interrupted. */
  predicate GoesOn(r: Read, size: nat) {
    r.Interrupted? || (r.Data? && |r.bytes| == size)
  }

  class ReadSide {
    const server: Server
    var rbuf: seq<Byte>
    var msg: seq<Byte>
    var msgOp: Byte
    var fragged: bool
    var log: seq<Event>
    /** The connection has been closed, by the read path or by a handler. */
    var closed: bool
    /** The read path has given up: it does so when it closes, and at once. */
    var stopped: bool

    ghost function Asm(): Assembly
      reads this
    {
      Assembly(fragged, msgOp, msg)
    }

    ghost function View(): Outcome
      reads this
    {
      if stopped then Shut(log) else Open(Asm(), log, rbuf)
    }

    constructor (server: Server, pipelined: seq<Byte>)
      ensures this.server == server && View() == Open(IDLE, [], pipelined) && !closed
    {
      this.server := server;
      rbuf, msg, msgOp, fragged, log, closed, stopped := pipelined, [], 0, false, [], false, false;
    }

    /** Only the first close of a connection does anything. */
    method CloseWith(reason: Reason)
      requires closed == HungUp(log)
      modifies this`log, this`closed, this`stopped
      ensures closed && stopped && Shut(log) == Ended(old(log), reason)
    {
      if !closed {
        log := log + [Close(reason)];
        closed := true;
      }
      stopped := true;
    }

    method DispatchMessage(op: Byte, raw: seq<Byte>) returns (ok: bool)
      requires !stopped && closed == HungUp(log) && !fragged && msg == [] && msgOp == 0
      modifies this`log, this`closed, this`stopped
      ensures ok == !stopped && (ok ==> closed == HungUp(log))
      ensures View() == match Dispatched(server, op, old(log), raw)
                        case Shut(l) => Shut(l)
                        case Open(asm, l, _) => Open(asm, l, rbuf)
    {
      hide HungUp;
      if op == OP_BINARY {
        CloseWith(BinaryRejected);
        return false;
      }
      HungUpMore(log, Dispatch(raw));
      log := log + [Dispatch(raw)];
      var asked := server.closes(log);
      if server.hangs(log) && !closed {
        HungUpMore(log, HangUp);
        log := log + [HangUp];
        closed := true;
      }
      if asked {
        CloseWith(Policy);
        return false;
      }
      return true;
    }

    method HandleFrame(h: Header, payload: seq<Byte>) returns (ok: bool)
      requires !stopped && closed == HungUp(log) && (!fragged ==> msg == [] && msgOp == 0)
      modifies this`log, this`closed, this`stopped, this`fragged, this`msg, this`msgOp
      ensures ok == !stopped && (ok ==> closed == HungUp(log))
      ensures ok && !fragged ==> msg == [] && msgOp == 0
      ensures View() == match Framed(server, old(Asm()), old(log), h, payload)
                        case Shut(l) => Shut(l)
                        case Open(asm, l, _) => Open(asm, l, rbuf)
    {
      hide HungUp, Ended, Told;
      if h.op == OP_PING {
        if closed || server.pongFails(log) {
          CloseWith(WriteFailed);
          return false;
        }
        HungUpMore(log, Pong(payload));
        log := log + [Pong(payload)];
        return true;
      } else if h.op == OP_PONG {
        return true;
      } else if h.op == OP_CLOSE {
        var code, text := STATUS_NO_STATUS_RCVD, [];
        if |payload| >= 2 {
          code, text := payload[0] as nat * 256 + payload[1] as nat, payload[2..];
          TwoBytes(payload[..2]);
        }
        CloseWith(PeerClosed(code, text));
        return false;
      } else if h.op == OP_CONTINUATION {
        if !fragged {
          CloseWith(Protocol);
          return false;
        }
        if |msg| + |payload| > server.maxFrame {
          CloseWith(TooLarge);
          return false;
        }
        msg := msg + payload;
        if !h.fin {
          return true;
        }
        var op, whole := msgOp, msg;
        fragged, msg, msgOp := false, [], 0;
        ok := DispatchMessage(op, whole);
      } else if h.op == OP_TEXT || h.op == OP_BINARY {
        if fragged {
          CloseWith(Protocol);
          return false;
        }
        if h.fin {
          ok := DispatchMessage(h.op, payload);
          return;
        }
        fragged, msgOp, msg := true, h.op, payload;
        return true;
      } else {
        CloseWith(Protocol);
        return false;
      }
    }

    ghost predicate Valid()
      reads this
    {
      && server.maxFrame <= MAX_INT64
      && (!stopped && !fragged ==> msg == [] && msgOp == 0)
      && (!stopped ==> closed == HungUp(log))
    }

    /** Unmasks and handles the whole frame at buf[off..end]; the bytes behind it stay as they were. */
    method ServeFrame(buf: array<Byte>, off: nat, end: nat, h: Header, hlen: nat) returns (ok: bool)
      requires Valid() && !stopped && off <= end <= buf.Length
      requires WholeFrame(buf[off..end], server.maxFrame) && HeaderOf(buf[off..end], server.maxFrame) == Got(h, hlen)
      modifies this`log, this`closed, this`stopped, this`fragged, this`msg, this`msgOp, buf
      ensures Valid() && ok == !stopped
      ensures buf[off + hlen + h.length..end] == old(buf[off..end])[hlen + h.length..]
      ensures match First(server, old(Asm()), old(log), old(buf[off..end]))
              case Shut(l) => stopped && log == l
              case Open(asm, l, _) => !stopped && Asm() == asm && log == l
    {
      hide HeaderOf, Framed, Unmask, Run, HungUp;
      ghost var pending := buf[off..end];
      HeaderBounds(pending, server.maxFrame);
      var from := off + hlen;
      var to := from + h.length;
      SliceOfSlice(buf[..], off, end, hlen, hlen + h.length);
      SliceOfSlice(buf[..], off, end, hlen + h.length, end - off);
      assert pending == buf[..][off..end];
      var payload := TakePayload(buf, from, to, end, h);
      ok := HandleFrame(h, payload);
    }

    /** Parses what b[..n] completes. The bytes behind the last complete frame are copied into rbuf
        still masked, because unmasking never runs ahead of off. */
    method Consume(b: array<Byte>, n: nat) returns (ok: bool)
      requires Valid() && !stopped && n <= b.Length
      modifies this, b
      ensures Valid() && ok == !stopped
      ensures View() == Feed(server, old(View()), old(b[..n]))
    {
      hide HeaderOf, Run, First, Unmask, Dispatched, Framed, HungUp;
      var buf, end := b, n;
      ghost var input := rbuf + b[..n];
      ghost var target := Feed(server, View(), b[..n]);
      if |rbuf| > 0 {
        buf, end := Append(rbuf, b, n);
      } else {
        assert input == b[..n];
      }
      assert buf[..end] == input;
      var off := 0;
      while true
        invariant off <= end <= buf.Length && |input| == end
        invariant buf == b || fresh(buf)
        invariant Valid() && !stopped && rbuf == old(rbuf)
        invariant buf[off..end] == input[off..]
        invariant target == Run(server, Asm(), log, input[off..])
        decreases end - off
      {
        var parsed := ParseHeader(buf[off..end], server.maxFrame);
        HeaderBounds(input[off..], server.maxFrame);
        if WholeFrame(input[off..], server.maxFrame) {
          RunStep(server, Asm(), log, input[off..]);
        } else {
          RunStops(server, Asm(), log, input[off..]);
        }
        if parsed.Bad? {
          CloseWith(ReasonFor(parsed.error));
          return false;
        }
        if parsed.NeedMore? {
          break;
        }
        var size := parsed.hlen + parsed.h.length;
        if off + size > end {
          break;
        }
        ok := ServeFrame(buf, off, end, parsed.h, parsed.hlen);
        if !ok {
          return;
        }
        assert input[off..][size..] == input[off + size..];
        off := off + size;
      }
      rbuf := buf[off..end];
      return true;
    }

    /** Drains the socket: reads chunk after chunk into the caller's scratch buffer until a read
        comes up short, would block or fails. Once a handler has hung up, the next read fails. */
    method OnReadable(scratch: array<Byte>, arrivals: seq<Read>) returns (ok: bool, used: nat)
      requires Valid() && !stopped && !closed
      requires forall r :: r in arrivals && r.Data? ==> 0 < |r.bytes| <= scratch.Length
      modifies this, scratch
      ensures Valid() && used <= |arrivals| && (ok ==> !stopped) && (!ok ==> stopped || closed)
      ensures var fed := FeedAll(server, old(View()), Arrived(old(rbuf), arrivals[..used]));
              if used > 0 && arrivals[used - 1].Failed? then View() == Shut(fed.log + [Close(ReadFailed)])
              else View() == fed
      ensures forall i :: 0 <= i < used - 1 ==> GoesOn(arrivals[i], scratch.Length)
      ensures used > 0 ==>
                var before := FeedAll(server, old(View()), Arrived(old(rbuf), arrivals[..used - 1]));
                before.Open? && !HungUp(before.log)
      ensures ok ==> (used == |arrivals| && !closed) || (used > 0 && !GoesOn(arrivals[used - 1], scratch.Length))
    {
      hide Feed, FeedAll, Arrived, HungUp;
      used := 0;
      ghost var start := View();
      FeedFirst(server, start, []);
      NothingArrived(rbuf, arrivals);
      if |rbuf| > 0 {
        var none := new Byte[0];
        ok := Consume(none, 0);
        assert none[..0] == [];
        if !ok {
          return;
        }
      }
      while used < |arrivals|
        invariant used <= |arrivals| && Valid() && !stopped
        invariant used > 0 ==> !arrivals[used - 1].Failed?
        invariant used > 0 ==>
                    var before := FeedAll(server, start, Arrived(old(rbuf), arrivals[..used - 1]));
                    before.Open? && !HungUp(before.log)
        invariant forall i :: 0 <= i < used ==> GoesOn(arrivals[i], scratch.Length)
        invariant View() == FeedAll(server, start, Arrived(old(rbuf), arrivals[..used]))
      {
        if closed {
          return false, used;
        }
        var r := arrivals[used];
        ghost var chunks := Arrived(old(rbuf), arrivals[..used]);
        OneMoreArrived(old(rbuf), arrivals, used);
        used := used + 1;
        match r {
          case Data(bytes) =>
            Fill(scratch, bytes);
            assert scratch[..|bytes|] == bytes;
            FeedAllSnoc(server, start, chunks, bytes);
            ok := Consume(scratch, |bytes|);
            if !ok {
              return;
            }
            if |bytes| < scratch.Length {
              return;
            }
          case Again =>
            return true, used;
          case Interrupted =>
          case Failed =>
            CloseReadFailed();
            return false, used;
        }
      }
      ok := !closed;
    }

    method CloseReadFailed()
      requires Valid() && !stopped && !closed
      modifies this`log, this`closed, this`stopped
      ensures Valid() && closed && View() == Shut(old(log) + [Close(ReadFailed)])
    {
      CloseWith(ReadFailed);
    }
  }

  lemma FeedFirst(sv: Server, o: Outcome, b: seq<Byte>)
    ensures FeedAll(sv, o, []) == o && FeedAll(sv, o, [b]) == FeedLive(sv, o, b)
  {
    hide FeedLive;
    assert [b][1..] == [];
  }

  lemma NothingArrived(leftover: seq<Byte>, arrivals: seq<Read>)
    ensures Arrived(leftover, arrivals[..0]) == if leftover == [] then [] else [[]]
  {
  }

  lemma OneMoreArrived(leftover: seq<Byte>, arrivals: seq<Read>, i: nat)
    requires i < |arrivals|
    ensures Arrived(leftover, arrivals[..i + 1]) ==
              Arrived(leftover, arrivals[..i]) + if arrivals[i].Data? then [arrivals[i].bytes] else []
    ensures !arrivals[i].Data? ==> Arrived(leftover, arrivals[..i + 1]) == Arrived(leftover, arrivals[..i])
  {
    assert arrivals[..i + 1][..i] == arrivals[..i];
  }

  /** The chunks consumed: an empty one first if bytes were left over, then each read's data. */
  function Arrived(leftover: seq<Byte>, arrivals: seq<Read>): seq<seq<Byte>> {
    if arrivals == [] then if leftover == [] then [] else [[]]
    else
      var r := arrivals[|arrivals| - 1];
      Arrived(leftover, arrivals[..|arrivals| - 1]) + if r.Data? then [r.bytes] else []
  }

  lemma {:induction false} FeedAllSnoc(sv: Server, o: Outcome, chunks: seq<seq<Byte>>, b: seq<Byte>)
    ensures FeedAll(sv, o, chunks + [b]) == FeedLive(sv, FeedAll(sv, o, chunks), b)
    decreases |chunks|
  {
    hide FeedLive;
    if chunks == [] {
      FeedFirst(sv, o, b);
      assert chunks + [b] == [b];
    } else {
      FeedAllSnoc(sv, FeedLive(sv, o, chunks[0]), chunks[1..], b);
      assert (chunks + [b])[1..] == chunks[1..] + [b];
    }
  }

  /** The payload buf[from..to], unmasked where it lies; what follows stays as it was. */
  method TakePayload(buf: array<Byte>, from: nat, to: nat, end: nat, h: Header) returns (payload: seq<Byte>)
    requires from <= to <= end <= buf.Length && |h.mask| == 4
    modifies buf
    ensures payload == if h.masked then Unmask(old(buf[from..to]), h.mask) else old(buf[from..to])
    ensures buf[to..end] == old(buf[to..end])
  {
    ghost var behind := buf[to..];
    if h.masked {
      Cipher(buf, from, to, h.mask);
    }
    assert buf[to..end] == behind[..end - to];
    payload := buf[from..to];
  }

  method Fill(scratch: array<Byte>, bytes: seq<Byte>)
    requires |bytes| <= scratch.Length
    modifies scratch
    ensures scratch[..|bytes|] == bytes
  {
    for i := 0 to |bytes|
      invariant scratch[..i] == bytes[..i]
    {
      scratch[i] := bytes[i];
    }
  }

  lemma SliceOfSlice(s: seq<Byte>, off: nat, end: nat, i: nat, j: nat)
    requires off <= end <= |s| && i <= j <= end - off
    ensures s[off + i..off + j] == s[off..end][i..j]
  {
    forall k | 0 <= k < j - i
      ensures s[off + i..off + j][k] == s[off..end][i..j][k]
    {
      assert s[off..end][i + k] == s[off + i + k];
    }
  }

  /** A new buffer holding kept ++ b[..n], as growing the leftover buffer makes. */
  method Append(kept: seq<Byte>, b: array<Byte>, n: nat) returns (buf: array<Byte>, end: nat)
    requires n <= b.Length
    ensures fresh(buf) && end == buf.Length == |kept| + n
    ensures buf[..end] == kept + b[..n]
  {
    end := |kept| + n;
    var all := kept + b[..n];
    buf := new Byte[end](i requires 0 <= i < end => all[i]);
  }
}
