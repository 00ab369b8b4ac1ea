/** The application's handle for one data channel. The underlying channel comes, opens, closes and is
    replaced; what is sent meanwhile waits in a bounded queue that forgets its oldest message first. */
module ChannelHandle {
  import opened Options

  type Message = seq<char>

  // ---------------------------------------------------------------- what the handle promises

  /** What happens to a handle: a send, its channel open, its channel no longer open. */
  datatype Event = Sent(message: Message) | Opened | Shut

  /** waiting: everything sent since the channel was last open. */
  datatype Promise = Promise(open: bool, delivered: seq<Message>, waiting: seq<Message>)

  function Last(s: seq<Message>, n: nat): seq<Message> {
    if |s| <= n then s else s[|s| - n..]
  }

  /** At least one message is kept, whatever the limit. */
  function Capacity(limit: int): nat {
    if limit < 1 then 1 else limit
  }

  /** While open, everything passes in order; what is sent otherwise is delivered at the next opening,
      as far as the last few of it go. */
  function Promised(events: seq<Event>, limit: int): Promise {
    if events == [] then Promise(false, [], [])
    else
      var p := Promised(events[..|events| - 1], limit);
      match events[|events| - 1]
      case Sent(m) =>
        if p.open then p.(delivered := p.delivered + [m]) else p.(waiting := p.waiting + [m])
      case Opened => Promise(true, p.delivered + Last(p.waiting, Capacity(limit)), [])
      case Shut => p.(open := false)
  }

  function Sends(events: seq<Event>): seq<Message> {
    if events == [] then []
    else
      var before := Sends(events[..|events| - 1]);
      match events[|events| - 1]
      case Sent(m) => before + [m]
      case _ => before
  }

  /** The messages of b at the places where the mask holds. */
  function Kept(b: seq<Message>, mask: seq<bool>): seq<Message>
    requires |b| == |mask|
  {
    if b == [] then []
    else Kept(b[..|b| - 1], mask[..|b| - 1]) + if mask[|b| - 1] then [b[|b| - 1]] else []
  }

  /** Of n messages that waited, the last few survive. */
  function Tail(n: nat, capacity: nat): (mask: seq<bool>)
    ensures |mask| == n && forall i :: 0 <= i < n ==> mask[i] == (i >= n - capacity)
  {
    seq(n, i => i >= n - capacity)
  }

  /** Which of the sends no longer waiting have survived: all those made while open, and of each
      silence the last few. */
  function Settled(events: seq<Event>, limit: int): seq<bool> {
    if events == [] then []
    else
      var before, p := Settled(events[..|events| - 1], limit), Promised(events[..|events| - 1], limit);
      match events[|events| - 1]
      case Sent(_) => if p.open then before + [true] else before
      case Opened => before + Tail(|p.waiting|, Capacity(limit))
      case Shut => before
  }

  function Survivors(events: seq<Event>, limit: int): seq<bool> {
    Settled(events, limit) + Tail(|Promised(events, limit).waiting|, Capacity(limit))
  }

  // ---------------------------------------------------------------- the queue

  function Push(queue: seq<Message>, m: Message, limit: int): seq<Message> {
    (if |queue| >= limit && queue != [] then queue[1..] else queue) + [m]
  }

  /** Shifting on overflow keeps exactly the last few. */
  lemma PushKeepsLast(waiting: seq<Message>, m: Message, limit: int)
    ensures Push(Last(waiting, Capacity(limit)), m, limit) == Last(waiting + [m], Capacity(limit))
  {
  }

  lemma PromisedMore(events: seq<Event>, e: Event, limit: int)
    ensures var p := Promised(events, limit);
            Promised(events + [e], limit) ==
              match e
              case Sent(m) => if p.open then p.(delivered := p.delivered + [m]) else p.(waiting := p.waiting + [m])
              case Opened => Promise(true, p.delivered + Last(p.waiting, Capacity(limit)), [])
              case Shut => p.(open := false)
  {
    assert (events + [e])[..|events|] == events;
  }

  lemma {:induction false} OpenMeansNothingWaits(events: seq<Event>, limit: int)
    ensures Promised(events, limit).open ==> Promised(events, limit).waiting == []
    decreases |events|
  {
    if events != [] {
      OpenMeansNothingWaits(events[..|events| - 1], limit);
    }
  }

  // ---------------------------------------------------------------- conservation

  lemma KeptAppend(b: seq<Message>, m: Message, mask: seq<bool>, keep: bool)
    requires |b| == |mask|
    ensures Kept(b + [m], mask + [keep]) == Kept(b, mask) + if keep then [m] else []
  {
    assert (b + [m])[..|b|] == b && (mask + [keep])[..|b|] == mask;
  }

  lemma {:induction false} KeptSplit(b: seq<Message>, c: seq<Message>, mask: seq<bool>, rest: seq<bool>)
    requires |b| == |mask| && |c| == |rest|
    ensures Kept(b + c, mask + rest) == Kept(b, mask) + Kept(c, rest)
    decreases |c|
  {
    if c == [] {
      assert b + c == b && mask + rest == mask;
    } else {
      var n := |c| - 1;
      KeptSplit(b, c[..n], mask, rest[..n]);
      KeptAppend(b + c[..n], c[n], mask + rest[..n], rest[n]);
      assert b + c == (b + c[..n]) + [c[n]] && mask + rest == (mask + rest[..n]) + [rest[n]];
    }
  }

  lemma {:induction false} KeptAll(b: seq<Message>, mask: seq<bool>)
    requires |b| == |mask| && forall i :: 0 <= i < |mask| ==> mask[i]
    ensures Kept(b, mask) == b
    decreases |b|
  {
    if b != [] {
      KeptAll(b[..|b| - 1], mask[..|b| - 1]);
    }
  }

  lemma {:induction false} KeptNone(b: seq<Message>, mask: seq<bool>)
    requires |b| == |mask| && forall i :: 0 <= i < |mask| ==> !mask[i]
    ensures Kept(b, mask) == []
    decreases |b|
  {
    if b != [] {
      KeptNone(b[..|b| - 1], mask[..|b| - 1]);
    }
  }

  lemma KeptTail(b: seq<Message>, capacity: nat)
    ensures Kept(b, Tail(|b|, capacity)) == Last(b, capacity)
  {
    hide Kept, Tail;
    var n, mask := if |b| <= capacity then 0 else |b| - capacity, Tail(|b|, capacity);
    KeptNone(b[..n], mask[..n]);
    KeptAll(b[n..], mask[n..]);
    KeptSplit(b[..n], b[n..], mask[..n], mask[n..]);
    assert b[..n] + b[n..] == b && mask[..n] + mask[n..] == mask;
  }

  lemma {:induction false} SettledAccount(events: seq<Event>, limit: int)
    ensures var p, sends, settled := Promised(events, limit), Sends(events), Settled(events, limit);
            && |settled| + |p.waiting| == |sends| && sends[|settled|..] == p.waiting
            && Kept(sends[..|settled|], settled) == p.delivered
    decreases |events|
  {
    hide Kept, Last, Tail;
    if events == [] {
      assert Kept([], []) == [] by { KeptNone([], []); }
    } else {
      var before := events[..|events| - 1];
      SettledAccount(before, limit);
      OpenMeansNothingWaits(before, limit);
      var p, sends, settled := Promised(before, limit), Sends(before), Settled(before, limit);
      match events[|events| - 1]
      case Sent(m) =>
        assert Sends(events) == sends + [m];
        if p.open {
          assert sends[..|settled|] == sends;
          KeptAppend(sends, m, settled, true);
          assert Sends(events)[..|settled| + 1] == sends + [m];
        } else {
          assert Sends(events)[..|settled|] == sends[..|settled|];
          assert Sends(events)[|settled|..] == p.waiting + [m];
        }
      case Opened =>
        KeptTail(p.waiting, Capacity(limit));
        KeptSplit(sends[..|settled|], p.waiting, settled, Tail(|p.waiting|, Capacity(limit)));
        assert sends[..|settled|] + p.waiting == sends;
        assert Sends(events)[..|Settled(events, limit)|] == sends;
      case Shut =>
    }
  }

  /** Delivered messages, then the queue, are all the sends in order, without those that overflowed;
      those are, of each silence, all but the last few. */
  lemma NothingElseIsLost(events: seq<Event>, limit: int)
    ensures var p, sends, mask := Promised(events, limit), Sends(events), Survivors(events, limit);
            |mask| == |sends| && Kept(sends, mask) == p.delivered + Last(p.waiting, Capacity(limit))
  {
    hide Kept, Last;
    var p, sends, settled := Promised(events, limit), Sends(events), Settled(events, limit);
    SettledAccount(events, limit);
    KeptTail(p.waiting, Capacity(limit));
    KeptSplit(sends[..|settled|], p.waiting, settled, Tail(|p.waiting|, Capacity(limit)));
    assert sends[..|settled|] + p.waiting == sends;
  }

  // ---------------------------------------------------------------- the handle

  datatype ReadyState = Connecting | Open | Closing | Closed

  datatype Policy = Buffer | Throw | Drop

  datatype Outcome = Accepted | NotOpen

  datatype Emission = OpenEvent | CloseEvent | ErrorEvent

  /** How many of n sends a channel takes. */
  function Taken(room: Option<nat>, n: nat): (k: nat)
    ensures k <= n
  {
    if room.Some? && room.value < n then room.value else n
  }

  lemma OneMore(sent: seq<Message>, pending: seq<Message>, i: nat)
    requires i < |pending|
    ensures sent + pending[..i] + [pending[i]] == sent + pending[..i + 1]
  {
  }

  /** An RTCDataChannel. room is how many more sends it takes before one throws, if one ever does;
      wired says that its handlers are set. */
  class Channel {
    var readyState: ReadyState
    var sent: seq<Message>
    var room: Option<nat>
    var wired: bool

    constructor (readyState: ReadyState, room: Option<nat>)
      ensures this.readyState == readyState && sent == [] && this.room == room && !wired
    {
      this.readyState, sent, this.room, wired := readyState, [], room, false;
    }

    method Send(m: Message) returns (ok: bool)
      modifies this`sent, this`room
      ensures ok == (old(room) != Some(0))
      ensures sent == if ok then old(sent) + [m] else old(sent)
      ensures room == if ok && old(room).Some? then Some(old(room).value - 1) else old(room)
    {
      if room == Some(0) {
        return false;
      }
      sent := sent + [m];
      if room.Some? {
        room := Some(room.value - 1);
      }
      ok := true;
    }

    /** Sends one message after the other until one throws; k says how many went. */
    method SendAll(pending: seq<Message>) returns (k: nat)
      modifies this`sent, this`room
      ensures k == Taken(old(room), |pending|)
      ensures sent == old(sent) + pending[..k]
      ensures room == if old(room).Some? then Some(old(room).value - k) else None
    {
      k := 0;
      assert old(sent) + pending[..0] == old(sent);
      while k < |pending|
        invariant k <= Taken(old(room), |pending|)
        invariant room == if old(room).Some? then Some(old(room).value - k) else None
        invariant sent == old(sent) + pending[..k]
      {
        OneMore(old(sent), pending, k);
        var ok := Send(pending[k]);
        if !ok {
          return;
        }
        k := k + 1;
      }
    }
  }

  /** Something went wrong, and the application is told. */
  function Complaints(wrong: bool): seq<Emission> {
    if wrong then [ErrorEvent] else []
  }

  class DataChannelHandle {
    const policy: Policy
    const bufferLimit: int
    var channel: Channel?
    var queue: seq<Message>
    var closed: bool
    var emitted: seq<Emission>
    /** What happened, what was handed to channels, and what they threw away. */
    ghost var events: seq<Event>
    ghost var delivered: seq<Message>
    ghost var lost: seq<Message>

    ghost predicate IsOpen()
      reads this, channel
    {
      channel != null && channel.readyState.Open?
    }

    ghost predicate Valid()
      reads this, channel
    {
      && (channel != null ==> channel.wired)
      && |queue| <= Capacity(bufferLimit)
      && (IsOpen() ==> queue == [])
      && (policy.Buffer? && !closed && lost == [] ==> Keeps())
    }

    /** The promise, kept. */
    ghost predicate Keeps()
      reads this, channel
    {
      var p := Promised(events, bufferLimit);
      p.open == IsOpen() && delivered == p.delivered && queue == Last(p.waiting, Capacity(bufferLimit))
    }

    constructor (policy: Policy, bufferLimit: int)
      ensures Valid() && this.policy == policy && this.bufferLimit == bufferLimit
      ensures channel == null && queue == [] && !closed && emitted == []
      ensures events == [] && delivered == [] && lost == []
    {
      this.policy, this.bufferLimit := policy, bufferLimit;
      channel, queue, closed, emitted := null, [], false, [];
      events, delivered, lost := [], [], [];
    }

    method Send(m: Message) returns (outcome: Outcome)
      requires Valid()
      modifies this`queue, this`emitted, this`events, this`delivered, this`lost, channel
      ensures Valid() && outcome == (if !old(IsOpen()) && policy.Throw? then NotOpen else Accepted)
      ensures channel == old(channel) && closed == old(closed)
      ensures channel != null ==> channel.readyState == old(channel.readyState)
      ensures channel != null ==>
                channel.sent == if old(IsOpen()) && old(channel.room) != Some(0) then old(channel.sent) + [m]
                                else old(channel.sent)
      ensures policy.Buffer? || old(IsOpen()) ==> events == old(events) + [Sent(m)]
      ensures queue == if old(IsOpen()) || !policy.Buffer? then old(queue) else Push(old(queue), m, bufferLimit)
      ensures old(IsOpen()) ==>
                if old(channel.room) != Some(0) then delivered == old(delivered) + [m] && lost == old(lost)
                else lost == old(lost) + [m] && delivered == old(delivered)
      ensures !old(IsOpen()) ==> delivered == old(delivered) && lost == old(lost)
      ensures emitted == old(emitted) + Complaints(
                if old(IsOpen()) then old(channel.room) == Some(0)
                else policy.Buffer? && |old(queue)| >= bufferLimit)
    {
      hide Promised, Last;
      PromisedMore(events, Sent(m), bufferLimit);
      if channel != null && channel.readyState.Open? {
        var ok := channel.Send(m);
        events := events + [Sent(m)];
        if ok {
          delivered := delivered + [m];
        } else {
          lost := lost + [m];
          emitted := emitted + [ErrorEvent];
        }
        return Accepted;
      }
      match policy {
        case Buffer =>
          PushKeepsLast(Promised(events, bufferLimit).waiting, m, bufferLimit);
          if |queue| >= bufferLimit {
            if queue != [] {
              queue := queue[1..];
            }
            emitted := emitted + [ErrorEvent];
          }
          queue := queue + [m];
          events := events + [Sent(m)];
          return Accepted;
        case Drop =>
          return Accepted;
        case Throw =>
          return NotOpen;
      }
    }

    /** Hands the queue over; what follows a throw is gone. */
    method FlushQueue(ch: Channel)
      modifies this`queue, this`emitted, this`delivered, this`lost, ch`sent, ch`room
      ensures queue == []
      ensures var k := Taken(old(ch.room), |old(queue)|);
              && ch.sent == old(ch.sent) + old(queue)[..k]
              && delivered == old(delivered) + old(queue)[..k] && lost == old(lost) + old(queue)[k..]
              && emitted == old(emitted) + Complaints(k < |old(queue)|)
    {
      if |queue| == 0 {
        return;
      }
      var pending := queue;
      queue := [];
      var k := ch.SendAll(pending);
      if k < |pending| {
        emitted := emitted + [ErrorEvent];
      }
      delivered, lost := delivered + pending[..k], lost + pending[k..];
    }

    method HandleOpen()
      requires channel != null && channel.readyState.Open? && channel.wired && |queue| <= Capacity(bufferLimit)
      requires policy.Buffer? && !closed && lost == [] ==>
                 delivered == Promised(events, bufferLimit).delivered
                 && queue == Last(Promised(events, bufferLimit).waiting, Capacity(bufferLimit))
      modifies this`queue, this`emitted, this`events, this`delivered, this`lost, channel`sent, channel`room
      ensures Valid() && IsOpen() && queue == [] && events == old(events) + [Opened]
      ensures var k := Taken(old(channel.room), |old(queue)|);
              && channel.sent == old(channel.sent) + old(queue)[..k]
              && delivered == old(delivered) + old(queue)[..k] && lost == old(lost) + old(queue)[k..]
              && emitted == old(emitted) + Complaints(k < |old(queue)|) + [OpenEvent]
    {
      hide Promised, Last;
      PromisedMore(events, Opened, bufferLimit);
      FlushQueue(channel);
      events := events + [Opened];
      emitted := emitted + [OpenEvent];
      NothingLast(bufferLimit);
    }

    method Bind(ch: Channel)
      requires Valid() && (ch.wired ==> ch == channel)
      modifies this, channel, ch
      ensures Valid() && channel == ch && closed == old(closed) && ch.readyState == old(ch.readyState)
      ensures old(channel) != null && old(channel) != ch ==>
                !old(channel).wired && old(channel).sent == old(channel.sent)
      ensures events == if old(channel) == ch then old(events)
                        else old(events) + (if old(channel) == null then [] else [Shut])
                             + (if old(ch.readyState).Open? then [Opened] else [])
      ensures old(channel) == ch || !old(ch.readyState).Open? ==>
                queue == old(queue) && delivered == old(delivered) && lost == old(lost) && ch.sent == old(ch.sent)
      ensures old(channel) != ch && old(ch.readyState).Open? ==>
                var k := Taken(old(ch.room), |old(queue)|);
                && queue == [] && ch.sent == old(ch.sent) + old(queue)[..k]
                && delivered == old(delivered) + old(queue)[..k] && lost == old(lost) + old(queue)[k..]
      ensures emitted == old(emitted) + (if old(channel) != ch && old(IsOpen()) then [CloseEvent] else [])
                + if old(channel) == ch || !old(ch.readyState).Open? then []
                  else Complaints(Taken(old(ch.room), |old(queue)|) < |old(queue)|) + [OpenEvent]
    {
      if channel == ch {
        return;
      }
      Unbind();
      channel := ch;
      ch.wired := true;
      if ch.readyState.Open? {
        HandleOpen();
      }
    }

    /** Messages still queued stay for the next channel. */
    method Unbind()
      requires Valid()
      modifies this`channel, this`emitted, this`events, channel
      ensures Valid() && channel == null
      ensures old(channel) != null ==>
                var ch := old(channel);
                && !ch.wired && ch.sent == old(channel.sent)
                && ch.readyState == old(channel.readyState) && ch.room == old(channel.room)
      ensures emitted == if old(IsOpen()) then old(emitted) + [CloseEvent] else old(emitted)
      ensures events == if old(channel) == null then old(events) else old(events) + [Shut]
    {
      if channel == null {
        return;
      }
      var wasOpen := channel.readyState.Open?;
      channel.wired := false;
      channel := null;
      PromisedMore(events, Shut, bufferLimit);
      events := events + [Shut];
      if wasOpen {
        emitted := emitted + [CloseEvent];
      }
    }

    /** After this nothing is promised, though a buffering handle goes on queueing. */
    method Dispose()
      requires Valid()
      modifies this, channel
      ensures Valid() && channel == null && queue == [] && closed
      ensures delivered == old(delivered) && lost == old(lost)
      ensures old(channel) != null ==> !old(channel).wired && old(channel).sent == old(channel.sent)
      ensures emitted == if old(IsOpen()) then old(emitted) + [CloseEvent] else old(emitted)
      ensures events == if old(channel) == null then old(events) else old(events) + [Shut]
    {
      Unbind();
      queue := [];
      closed := true;
    }

    // -------------------------------------------------------------- what the browser does

    /** The bound channel opens, and its handler runs. */
    method ChannelOpens()
      requires Valid() && channel != null && channel.readyState.Connecting?
      modifies this`queue, this`emitted, this`events, this`delivered, this`lost, channel
      ensures Valid() && IsOpen() && queue == [] && channel == old(channel) && events == old(events) + [Opened]
      ensures var k := Taken(old(channel.room), |old(queue)|);
              && channel.sent == old(channel.sent) + old(queue)[..k]
              && delivered == old(delivered) + old(queue)[..k] && lost == old(lost) + old(queue)[k..]
              && emitted == old(emitted) + Complaints(k < |old(queue)|) + [OpenEvent]
    {
      channel.readyState := Open;
      HandleOpen();
    }

    /** close() was called on the channel, here or at the other end. */
    method ChannelStartsClosing()
      requires Valid() && channel != null && !channel.readyState.Closed?
      modifies this`events, channel`readyState
      ensures Valid() && !IsOpen() && channel.readyState.Closing? && events == old(events) + [Shut]
    {
      PromisedMore(events, Shut, bufferLimit);
      channel.readyState := Closing;
      events := events + [Shut];
    }

    method ChannelCloses()
      requires Valid() && channel != null
      modifies this`channel, this`emitted, this`events, channel`readyState
      ensures Valid() && channel == null && old(channel).readyState.Closed?
      ensures old(channel).sent == old(channel.sent)
      ensures emitted == old(emitted) + [CloseEvent] && events == old(events) + [Shut]
    {
      PromisedMore(events, Shut, bufferLimit);
      channel.readyState := Closed;
      events := events + [Shut];
      channel := null;
      emitted := emitted + [CloseEvent];
    }
  }

  lemma NothingLast(limit: int)
    ensures Last([], Capacity(limit)) == []
  {
  }

  /** A disposed handle refuses a send if and only if its policy is to throw; one that buffers queues
      it, for a channel that will never come. */
  method SendAfterDispose(handle: DataChannelHandle, m: Message) returns (outcome: Outcome)
    requires handle.Valid()
    modifies handle, handle.channel
    ensures handle.Valid() && handle.closed
    ensures outcome.NotOpen? <==> handle.policy.Throw?
    ensures handle.queue == if handle.policy.Buffer? then [m] else []
  {
    handle.Dispose();
    outcome := handle.Send(m);
  }
}
