/** Framing round trip: whatever sequence of text messages a conforming client sends, however it
    masks, fragments and interleaves them with pings and pongs, the read path hands the handler
    exactly those messages in order and answers each ping with its own payload. */
module WsScript {
  import opened WsFrame
  import opened WsChunks
  import opened WsRead

  datatype Control = Control(ping: bool, mask: seq<Byte>, payload: seq<Byte>)

  /** One data frame of a message, behind the control frames sent just before it. */
  datatype Part = Part(before: seq<Control>, form: LengthForm, mask: seq<Byte>, bytes: seq<Byte>)

  datatype Script = Script(messages: seq<seq<Part>>, after: seq<Control>)

  function Text(parts: seq<Part>): seq<Byte> {
    if parts == [] then [] else parts[0].bytes + Text(parts[1..])
  }

  // ---------------------------------------------------------------- the frames of a script

  function ControlFrame(c: Control): ClientFrame {
    ClientFrame(true, if c.ping then OP_PING else OP_PONG, Short, c.mask, c.payload)
  }

  function ControlFrames(cs: seq<Control>): seq<ClientFrame> {
    if cs == [] then [] else [ControlFrame(cs[0])] + ControlFrames(cs[1..])
  }

  function DataFrame(p: Part, started: bool, last: bool): ClientFrame {
    ClientFrame(last, if started then OP_CONTINUATION else OP_TEXT, p.form, p.mask, p.bytes)
  }

  /** The frames of a message, of which some part has been sent if started. */
  function MessageFrames(parts: seq<Part>, started: bool): seq<ClientFrame> {
    if parts == [] then []
    else ControlFrames(parts[0].before) + [DataFrame(parts[0], started, |parts| == 1)] + MessageFrames(parts[1..], true)
  }

  function ScriptFrames(messages: seq<seq<Part>>): seq<ClientFrame> {
    if messages == [] then [] else MessageFrames(messages[0], false) + ScriptFrames(messages[1..])
  }

  function FramesOf(s: Script): seq<ClientFrame> {
    ScriptFrames(s.messages) + ControlFrames(s.after)
  }

  ghost predicate AllSendable(fs: seq<ClientFrame>, maxFrame: nat) {
    forall i :: 0 <= i < |fs| ==> Sendable(fs[i], maxFrame)
  }

  ghost predicate AllFit(messages: seq<seq<Part>>, maxFrame: nat) {
    forall i :: 0 <= i < |messages| ==> messages[i] != [] && |Text(messages[i])| <= maxFrame
  }

  ghost predicate Conforming(s: Script, maxFrame: nat) {
    && AllSendable(FramesOf(s), maxFrame)
    && AllFit(s.messages, maxFrame)
  }

  function EncodeAll(fs: seq<ClientFrame>): seq<Byte>
    requires forall i :: 0 <= i < |fs| ==> |fs[i].mask| == 4 && fs[i].op < 16
  {
    if fs == [] then [] else Encode(fs[0]) + EncodeAll(fs[1..])
  }

  // ---------------------------------------------------------------- what the client meant by it

  function Answers(cs: seq<Control>): seq<Event> {
    if cs == [] then []
    else (if cs[0].ping then [Pong(cs[0].payload)] else []) + Answers(cs[1..])
  }

  function MessageEvents(parts: seq<Part>, sofar: seq<Byte>): seq<Event> {
    if parts == [] then []
    else
      var text := sofar + parts[0].bytes;
      Answers(parts[0].before) + if |parts| == 1 then [Dispatch(text)] else MessageEvents(parts[1..], text)
  }

  function ScriptEvents(messages: seq<seq<Part>>): seq<Event> {
    if messages == [] then [] else MessageEvents(messages[0], []) + ScriptEvents(messages[1..])
  }

  function EventsOf(s: Script): seq<Event> {
    ScriptEvents(s.messages) + Answers(s.after)
  }

  /** Acting out a list of pongs and dispatches until reading stops. */
  function Deliver(sv: Server, asm: Assembly, log: seq<Event>, events: seq<Event>): Outcome
    decreases |events|
  {
    if events == [] then Open(asm, log, [])
    else
      match ActedOut(sv, asm, log, events[0])
      case Shut(l) => Shut(l)
      case Open(_, l, _) => Deliver(sv, asm, l, events[1..])
  }

  function ActedOut(sv: Server, asm: Assembly, log: seq<Event>, e: Event): Outcome {
    match e
    case Dispatch(message) => Told(sv, asm, log, message)
    case Pong(payload) => Ponged(sv, asm, log, payload)
    case _ => Open(asm, log, [])
  }

  lemma {:induction false} DeliverAppend(sv: Server, asm: Assembly, log: seq<Event>, one: seq<Event>, two: seq<Event>)
    ensures Deliver(sv, asm, log, one + two) == match Deliver(sv, asm, log, one)
                                                case Shut(l) => Shut(l)
                                                case Open(_, l, _) => Deliver(sv, asm, l, two)
    decreases |one|
  {
    if one == [] {
      assert one + two == two;
    } else {
      assert (one + two)[1..] == one[1..] + two;
      var o := ActedOut(sv, asm, log, one[0]);
      if o.Open? {
        DeliverAppend(sv, asm, o.log, one[1..], two);
      }
    }
  }

  lemma {:induction false} DeliverAnyAssembly(sv: Server, asm: Assembly, asm': Assembly, log: seq<Event>,
                                              events: seq<Event>)
    ensures Deliver(sv, asm, log, events) == match Deliver(sv, asm', log, events)
                                             case Shut(l) => Shut(l)
                                             case Open(_, l, r) => Open(asm, l, r)
    decreases |events|
  {
    hide HungUp;
    if events != [] {
      var o := ActedOut(sv, asm, log, events[0]);
      assert o == match ActedOut(sv, asm', log, events[0])
                  case Shut(l) => Shut(l)
                  case Open(_, l, r) => Open(asm, l, r);
      if o.Open? {
        DeliverAnyAssembly(sv, asm, asm', o.log, events[1..]);
      }
    }
  }

  // ---------------------------------------------------------------- from bytes to frames

  function RunFrames(sv: Server, asm: Assembly, log: seq<Event>, fs: seq<ClientFrame>): Outcome
    decreases |fs|
  {
    if fs == [] then Open(asm, log, [])
    else
      match Framed(sv, asm, log, Header(fs[0].fin, fs[0].op, true, fs[0].mask, |fs[0].payload|), fs[0].payload)
      case Shut(l) => Shut(l)
      case Open(asm', l, _) => RunFrames(sv, asm', l, fs[1..])
  }

  lemma {:induction false} BytesAreFrames(sv: Server, asm: Assembly, log: seq<Event>, fs: seq<ClientFrame>)
    requires AllSendable(fs, sv.maxFrame)
    ensures Run(sv, asm, log, EncodeAll(fs)) == RunFrames(sv, asm, log, fs)
    decreases |fs|
  {
    hide HeaderOf, Encode, Framed, Unmask;
    if fs == [] {
      assert HeaderOf([], sv.maxFrame) == NeedMore by {
        HeaderOfNothing(sv.maxFrame);
      }
    } else {
      var f, rest := fs[0], EncodeAll(fs[1..]);
      ParsesBack(f, rest, sv.maxFrame);
      RunStep(sv, asm, log, EncodeAll(fs));
      var o := First(sv, asm, log, EncodeAll(fs));
      if o.Open? {
        BytesAreFrames(sv, o.asm, o.log, fs[1..]);
      }
    }
  }

  lemma HeaderOfNothing(maxFrame: nat)
    ensures HeaderOf([], maxFrame) == NeedMore
  {
  }

  lemma {:induction false} RunFramesAppend(sv: Server, asm: Assembly, log: seq<Event>, one: seq<ClientFrame>,
                                           two: seq<ClientFrame>)
    ensures RunFrames(sv, asm, log, one + two) == match RunFrames(sv, asm, log, one)
                                                  case Shut(l) => Shut(l)
                                                  case Open(asm', l, _) => RunFrames(sv, asm', l, two)
    decreases |one|
  {
    hide Framed;
    if one == [] {
      assert one + two == two;
    } else {
      assert (one + two)[1..] == one[1..] + two;
      var o := Framed(sv, asm, log, Header(one[0].fin, one[0].op, true, one[0].mask, |one[0].payload|), one[0].payload);
      if o.Open? {
        RunFramesAppend(sv, o.asm, o.log, one[1..], two);
      }
    }
  }

  // ---------------------------------------------------------------- from frames to events

  lemma {:induction false} ControlsAnswered(sv: Server, asm: Assembly, log: seq<Event>, cs: seq<Control>)
    ensures RunFrames(sv, asm, log, ControlFrames(cs)) == Deliver(sv, asm, log, Answers(cs))
    decreases |cs|
  {
    if cs != [] {
      var fs, c := ControlFrames(cs), cs[0];
      assert fs[0] == ControlFrame(c) && fs[1..] == ControlFrames(cs[1..]);
      if c.ping {
        assert Answers(cs)[0] == Pong(c.payload) && Answers(cs)[1..] == Answers(cs[1..]);
        var o := Ponged(sv, asm, log, c.payload);
        if o.Open? {
          ControlsAnswered(sv, asm, o.log, cs[1..]);
        }
      } else {
        assert Answers(cs) == Answers(cs[1..]);
        ControlsAnswered(sv, asm, log, cs[1..]);
      }
    }
  }

  function Sofar(started: bool, text: seq<Byte>): Assembly {
    if started then Assembly(true, OP_TEXT, text) else IDLE
  }

  /** A data frame of a text message extends the message, or completes and dispatches it. */
  lemma DataFrameRuns(sv: Server, p: Part, started: bool, last: bool, text: seq<Byte>, log: seq<Event>)
    requires (!started ==> text == []) && |text + p.bytes| <= sv.maxFrame
    ensures RunFrames(sv, Sofar(started, text), log, [DataFrame(p, started, last)])
         == if last then Deliver(sv, IDLE, log, [Dispatch(text + p.bytes)])
            else Open(Sofar(true, text + p.bytes), log, [])
  {
    var f := DataFrame(p, started, last);
    assert [f][1..] == [];
    assert [Dispatch(text + p.bytes)][1..] == [];
    assert [] + p.bytes == p.bytes;
  }

  /** Control frames first, then frames that are known to act out their events. */
  lemma ControlsThen(sv: Server, asm: Assembly, log: seq<Event>, cs: seq<Control>, fs: seq<ClientFrame>,
                     events: seq<Event>)
    requires var o := Deliver(sv, IDLE, log, Answers(cs));
             o.Open? ==> RunFrames(sv, asm, o.log, fs) == Deliver(sv, IDLE, o.log, events)
    ensures RunFrames(sv, asm, log, ControlFrames(cs) + fs) == Deliver(sv, IDLE, log, Answers(cs) + events)
  {
    hide RunFrames, Deliver, ControlFrames, Answers;
    RunFramesAppend(sv, asm, log, ControlFrames(cs), fs);
    ControlsAnswered(sv, asm, log, cs);
    DeliverAnyAssembly(sv, asm, IDLE, log, Answers(cs));
    DeliverAppend(sv, IDLE, log, Answers(cs), events);
  }

  /** A message, given that its later parts (if any) are delivered on top of its first. */
  lemma {:induction false} MessageDelivered(sv: Server, parts: seq<Part>, started: bool, text: seq<Byte>,
                                            log: seq<Event>)
    requires parts != [] && (!started ==> text == []) && |text + Text(parts)| <= sv.maxFrame
    ensures RunFrames(sv, Sofar(started, text), log, MessageFrames(parts, started))
         == Deliver(sv, IDLE, log, MessageEvents(parts, text))
    decreases |parts|
  {
    hide RunFrames, Deliver, ControlFrames, Answers, Sofar;
    var p, last, grown := parts[0], |parts| == 1, text + parts[0].bytes;
    var data, more := [DataFrame(p, started, last)], MessageFrames(parts[1..], true);
    var tail := if last then [Dispatch(grown)] else MessageEvents(parts[1..], grown);
    assert MessageFrames(parts, started) == ControlFrames(p.before) + (data + more);
    assert text + Text(parts) == grown + Text(parts[1..]);
    var o := Deliver(sv, IDLE, log, Answers(p.before));
    if o.Open? {
      DataFrameRuns(sv, p, started, last, text, o.log);
      if last {
        assert data + more == data;
      } else {
        RunFramesAppend(sv, Sofar(started, text), o.log, data, more);
        MessageDelivered(sv, parts[1..], true, grown, o.log);
      }
    }
    ControlsThen(sv, Sofar(started, text), log, p.before, data + more, tail);
  }

  lemma {:induction false} ScriptDelivered(sv: Server, messages: seq<seq<Part>>, log: seq<Event>)
    requires AllFit(messages, sv.maxFrame)
    ensures RunFrames(sv, IDLE, log, ScriptFrames(messages)) == Deliver(sv, IDLE, log, ScriptEvents(messages))
    decreases |messages|
  {
    hide Framed, MessageFrames, MessageEvents;
    if messages != [] {
      var parts := messages[0];
      assert [] + Text(parts) == Text(parts);
      MessageDelivered(sv, parts, false, [], log);
      RunFramesAppend(sv, IDLE, log, MessageFrames(parts, false), ScriptFrames(messages[1..]));
      DeliverAppend(sv, IDLE, log, MessageEvents(parts, []), ScriptEvents(messages[1..]));
      var o := Deliver(sv, IDLE, log, MessageEvents(parts, []));
      if o.Open? {
        DeliverOpen(sv, IDLE, log, MessageEvents(parts, []));
        ScriptDelivered(sv, messages[1..], o.log);
      }
    }
  }

  lemma {:induction false} DeliverOpen(sv: Server, asm: Assembly, log: seq<Event>, events: seq<Event>)
    ensures var o := Deliver(sv, asm, log, events); o.Open? ==> o == Open(asm, o.log, [])
    decreases |events|
  {
    hide ActedOut;
    if events != [] {
      var o := ActedOut(sv, asm, log, events[0]);
      if o.Open? {
        DeliverOpen(sv, asm, o.log, events[1..]);
      }
    }
  }

  /** The round trip, for every server: read at once, the connection does what the script means, event
      for event, up to the point where reading stops. */
  lemma RoundTrip(sv: Server, s: Script, log: seq<Event>)
    requires Conforming(s, sv.maxFrame)
    ensures Run(sv, IDLE, log, EncodeAll(FramesOf(s))) == Deliver(sv, IDLE, log, EventsOf(s))
  {
    hide Run, Framed, RunFrames, Deliver, ScriptFrames, ScriptEvents, ControlFrames, Answers;
    BytesAreFrames(sv, IDLE, log, FramesOf(s));
    ScriptDelivered(sv, s.messages, log);
    RunFramesAppend(sv, IDLE, log, ScriptFrames(s.messages), ControlFrames(s.after));
    DeliverAppend(sv, IDLE, log, ScriptEvents(s.messages), Answers(s.after));
    var o := Deliver(sv, IDLE, log, ScriptEvents(s.messages));
    if o.Open? {
      DeliverOpen(sv, IDLE, log, ScriptEvents(s.messages));
      ControlsAnswered(sv, IDLE, o.log, s.after);
    }
  }

  ghost predicate Patient(sv: Server) {
    forall log :: !sv.closes(log) && !sv.hangs(log) && !sv.pongFails(log)
  }

  function Messages(log: seq<Event>): seq<seq<Byte>> {
    if log == [] then [] else (if log[0].Dispatch? then [log[0].message] else []) + Messages(log[1..])
  }

  function Pongs(log: seq<Event>): seq<seq<Byte>> {
    if log == [] then [] else (if log[0].Pong? then [log[0].payload] else []) + Pongs(log[1..])
  }

  /** A server that never closes is handed exactly the messages sent, however the bytes are cut. */
  lemma EveryMessageOnceInOrder(sv: Server, s: Script, chunks: seq<seq<Byte>>)
    requires Conforming(s, sv.maxFrame) && Patient(sv)
    requires chunks != [] && Concat(chunks) == EncodeAll(FramesOf(s))
    ensures var o := FeedAll(sv, Open(IDLE, [], []), chunks);
            o == Open(IDLE, EventsOf(s), []) && Messages(o.log) == Texts(s.messages) && Pongs(o.log) == Pings(s)
  {
    hide Run, HungUp;
    StartsLive();
    ChunkingIndependence(sv, Open(IDLE, [], []), chunks);
    assert [] + Concat(chunks) == Concat(chunks);
    RoundTrip(sv, s, []);
    NobodyHangsUp(s);
    PatientDelivers(sv, [], EventsOf(s));
    EventsAreMessages(s);
  }

  lemma StartsLive()
    ensures Proper(Open(IDLE, [], [])) && !HungUp([])
  {
  }

  ghost predicate Served(events: seq<Event>) {
    forall i :: 0 <= i < |events| ==> events[i].Dispatch? || events[i].Pong?
  }

  lemma {:induction false} PatientDelivers(sv: Server, log: seq<Event>, events: seq<Event>)
    requires Patient(sv) && Served(events) && !HungUp(log)
    ensures Deliver(sv, IDLE, log, events) == Open(IDLE, log + events, []) && !HungUp(log + events)
    decreases |events|
  {
    hide HungUp;
    if events == [] {
      assert log + events == log;
    } else {
      HungUpMore(log, events[0]);
      PatientDelivers(sv, log + [events[0]], events[1..]);
      assert log + [events[0]] + events[1..] == log + events;
    }
  }

  lemma {:induction false} AnswersServed(cs: seq<Control>)
    ensures Served(Answers(cs))
    decreases |cs|
  {
    if cs != [] {
      AnswersServed(cs[1..]);
    }
  }

  lemma {:induction false} MessageServed(parts: seq<Part>, sofar: seq<Byte>)
    ensures Served(MessageEvents(parts, sofar))
    decreases |parts|
  {
    if parts != [] {
      AnswersServed(parts[0].before);
      MessageServed(parts[1..], sofar + parts[0].bytes);
    }
  }

  lemma {:induction false} ScriptServed(messages: seq<seq<Part>>)
    ensures Served(ScriptEvents(messages))
    decreases |messages|
  {
    if messages != [] {
      MessageServed(messages[0], []);
      ScriptServed(messages[1..]);
    }
  }

  lemma NobodyHangsUp(s: Script)
    ensures Served(EventsOf(s))
  {
    ScriptServed(s.messages);
    AnswersServed(s.after);
  }

  function Texts(messages: seq<seq<Part>>): seq<seq<Byte>> {
    if messages == [] then [] else [Text(messages[0])] + Texts(messages[1..])
  }

  function PingsIn(cs: seq<Control>): seq<seq<Byte>> {
    if cs == [] then [] else (if cs[0].ping then [cs[0].payload] else []) + PingsIn(cs[1..])
  }

  function MessagePings(parts: seq<Part>): seq<seq<Byte>> {
    if parts == [] then [] else PingsIn(parts[0].before) + MessagePings(parts[1..])
  }

  function AllPings(messages: seq<seq<Part>>): seq<seq<Byte>> {
    if messages == [] then [] else MessagePings(messages[0]) + AllPings(messages[1..])
  }

  function Pings(s: Script): seq<seq<Byte>> {
    AllPings(s.messages) + PingsIn(s.after)
  }

  lemma {:induction false} MessagesAppend(one: seq<Event>, two: seq<Event>)
    ensures Messages(one + two) == Messages(one) + Messages(two)
    decreases |one|
  {
    if one == [] {
      assert one + two == two;
    } else {
      var head := if one[0].Dispatch? then [one[0].message] else [];
      assert (one + two)[1..] == one[1..] + two;
      MessagesAppend(one[1..], two);
      assert head + (Messages(one[1..]) + Messages(two)) == (head + Messages(one[1..])) + Messages(two);
    }
  }

  lemma {:induction false} PongsAppend(one: seq<Event>, two: seq<Event>)
    ensures Pongs(one + two) == Pongs(one) + Pongs(two)
    decreases |one|
  {
    if one == [] {
      assert one + two == two;
    } else {
      var head := if one[0].Pong? then [one[0].payload] else [];
      assert (one + two)[1..] == one[1..] + two;
      PongsAppend(one[1..], two);
      assert head + (Pongs(one[1..]) + Pongs(two)) == (head + Pongs(one[1..])) + Pongs(two);
    }
  }

  lemma ReadingAppends(one: seq<Event>, two: seq<Event>)
    ensures Messages(one + two) == Messages(one) + Messages(two)
    ensures Pongs(one + two) == Pongs(one) + Pongs(two)
  {
    MessagesAppend(one, two);
    PongsAppend(one, two);
  }

  lemma {:induction false} AnswersRead(cs: seq<Control>)
    ensures Messages(Answers(cs)) == [] && Pongs(Answers(cs)) == PingsIn(cs)
    decreases |cs|
  {
    if cs != [] {
      AnswersRead(cs[1..]);
      if cs[0].ping {
        assert Answers(cs)[1..] == Answers(cs[1..]);
      } else {
        assert Answers(cs) == Answers(cs[1..]);
      }
    }
  }

  lemma OneDispatchRead(text: seq<Byte>)
    ensures Messages([Dispatch(text)]) == [text] && Pongs([Dispatch(text)]) == []
  {
    assert [Dispatch(text)][1..] == [];
  }

  lemma {:induction false} MessageRead(parts: seq<Part>, sofar: seq<Byte>)
    requires parts != []
    ensures Messages(MessageEvents(parts, sofar)) == [sofar + Text(parts)]
    ensures Pongs(MessageEvents(parts, sofar)) == MessagePings(parts)
    decreases |parts|
  {
    hide Answers;
    var grown := sofar + parts[0].bytes;
    AnswersRead(parts[0].before);
    assert grown + Text(parts[1..]) == sofar + Text(parts);
    if |parts| == 1 {
      OneDispatchRead(grown);
      ReadingAppends(Answers(parts[0].before), [Dispatch(grown)]);
      assert MessageEvents(parts, sofar) == Answers(parts[0].before) + [Dispatch(grown)];
      assert grown + [] == grown;
      assert [] + [grown] == [grown];
      assert PingsIn(parts[0].before) + [] == PingsIn(parts[0].before);
    } else {
      MessageRead(parts[1..], grown);
      ReadingAppends(Answers(parts[0].before), MessageEvents(parts[1..], grown));
    }
  }

  lemma {:induction false} ScriptRead(messages: seq<seq<Part>>)
    requires forall i :: 0 <= i < |messages| ==> messages[i] != []
    ensures Messages(ScriptEvents(messages)) == Texts(messages)
    ensures Pongs(ScriptEvents(messages)) == AllPings(messages)
    decreases |messages|
  {
    if messages != [] {
      MessageRead(messages[0], []);
      assert [] + Text(messages[0]) == Text(messages[0]);
      ScriptRead(messages[1..]);
      ReadingAppends(MessageEvents(messages[0], []), ScriptEvents(messages[1..]));
    }
  }

  lemma EventsAreMessages(s: Script)
    requires forall i :: 0 <= i < |s.messages| ==> s.messages[i] != []
    ensures Messages(EventsOf(s)) == Texts(s.messages) && Pongs(EventsOf(s)) == Pings(s)
  {
    ScriptRead(s.messages);
    AnswersRead(s.after);
    ReadingAppends(ScriptEvents(s.messages), Answers(s.after));
  }

  // ---------------------------------------------------------------- whatever the server does

  lemma {:induction false} DeliverMessages(sv: Server, asm: Assembly, log: seq<Event>, events: seq<Event>)
    ensures Messages(log) <= Messages(Deliver(sv, asm, log, events).log) <= Messages(log) + Messages(events)
    decreases |events|
  {
    hide HungUp;
    if events != [] {
      var e, o := events[0], ActedOut(sv, asm, log, events[0]);
      ActedOutMessages(sv, asm, log, e);
      assert [e] + events[1..] == events;
      MessagesAppend([e], events[1..]);
      if o.Open? {
        DeliverMessages(sv, asm, o.log, events[1..]);
        assert Messages(log) + Messages([e]) + Messages(events[1..]) == Messages(log) + Messages(events);
      }
    }
  }

  lemma ActedOutMessages(sv: Server, asm: Assembly, log: seq<Event>, e: Event)
    ensures Messages(ActedOut(sv, asm, log, e).log) == Messages(log) + Messages([e])
  {
    hide Told, Ponged, Messages;
    if e.Dispatch? {
      ToldMessages(sv, asm, log, e.message);
      OneDispatchRead(e.message);
    } else {
      Silent([], e);
      NoMessages();
      assert [] + [e] == [e];
      if e.Pong? {
        PongedMessages(sv, asm, log, e.payload);
      }
    }
  }

  lemma ToldMessages(sv: Server, asm: Assembly, log: seq<Event>, message: seq<Byte>)
    ensures Messages(Told(sv, asm, log, message).log) == Messages(log) + [message]
  {
    hide HungUp, Messages;
    var told := log + [Dispatch(message)];
    MessagesAppend(log, [Dispatch(message)]);
    OneDispatchRead(message);
    Silent(told, HangUp);
    Silent(told, Close(Policy));
    Silent(told + [HangUp], Close(Policy));
  }

  lemma PongedMessages(sv: Server, asm: Assembly, log: seq<Event>, payload: seq<Byte>)
    ensures Messages(Ponged(sv, asm, log, payload).log) == Messages(log)
  {
    hide HungUp, Messages;
    Silent(log, Pong(payload));
    Silent(log, Close(WriteFailed));
  }

  lemma Silent(log: seq<Event>, e: Event)
    requires !e.Dispatch?
    ensures Messages(log + [e]) == Messages(log)
  {
    MessagesAppend(log, [e]);
    assert [e][1..] == [];
  }

  lemma NoMessages()
    ensures Messages([HangUp]) == [] && Messages([]) == []
  {
    assert [HangUp][1..] == [];
  }

  /** Whatever the server does and however the bytes are cut, what it is handed is a beginning of the
      messages sent: in order, each once, none made up. */
  lemma OnlyMessagesSent(sv: Server, s: Script, chunks: seq<seq<Byte>>)
    requires Conforming(s, sv.maxFrame) && chunks != [] && Concat(chunks) == EncodeAll(FramesOf(s))
    ensures Messages(FeedAll(sv, Open(IDLE, [], []), chunks).log) <= Texts(s.messages)
  {
    hide Run, HungUp, Deliver, Messages, FeedAll, Concat, EncodeAll, EventsOf, Texts;
    StartsLive();
    ChunkingIndependence(sv, Open(IDLE, [], []), chunks);
    assert [] + Concat(chunks) == Concat(chunks);
    RoundTrip(sv, s, []);
    DeliverMessages(sv, IDLE, [], EventsOf(s));
    EventsAreMessages(s);
    NoMessages();
    var log, whole := FeedAll(sv, Open(IDLE, [], []), chunks).log, Deliver(sv, IDLE, [], EventsOf(s)).log;
    assert whole == log + whole[|log|..];
    MessagesAppend(log, whole[|log|..]);
    assert [] + Messages(EventsOf(s)) == Messages(EventsOf(s));
  }

  /** A server whose handler hangs up over one message, as closing one's own room does. */
  function HangsUpOver(x: seq<Byte>, maxFrame: nat): Server {
    Server(maxFrame, log => false, log => log == [Dispatch(x)], log => false)
  }

  /** Two messages of which the first makes its handler hang up: read together, the second is still
      handed on; read one by one, it is not. */
  lemma HangUpRun(f: ClientFrame, g: ClientFrame, maxFrame: nat)
    requires Sendable(f, maxFrame) && Sendable(g, maxFrame)
    requires f.fin && g.fin && f.op == OP_TEXT && g.op == OP_TEXT
    ensures var sv, start := HangsUpOver(f.payload, maxFrame), Open(IDLE, [], []);
            && FeedAll(sv, start, [Encode(f) + Encode(g)]).log == [Dispatch(f.payload), HangUp, Dispatch(g.payload)]
            && FeedAll(sv, start, [Encode(f), Encode(g)]).log == [Dispatch(f.payload), HangUp]
  {
    hide Run, Encode, Deliver, Told;
    var sv, start := HangsUpOver(f.payload, maxFrame), Open(IDLE, [], []);
    var first, both := [Dispatch(f.payload), HangUp], [Dispatch(f.payload), HangUp, Dispatch(g.payload)];
    FrameTells(sv, [], f);
    FrameTells(sv, first, g);
    HangUpTold(f.payload, g.payload, maxFrame);
    assert EncodeAll([g]) == Encode(g) + EncodeAll([]) == Encode(g);
    assert EncodeAll([f]) == Encode(f) + EncodeAll([]) == Encode(f);
    assert [] + Encode(f) == Encode(f) && [] + Encode(g) == Encode(g);
    assert Feed(sv, start, Encode(f)) == Open(IDLE, first, []);
    assert Feed(sv, Open(IDLE, first, []), Encode(g)) == Open(IDLE, both, []);
    assert HungUp(first) by { assert first[1] == HangUp; }
    StartsLive();
    CutInTwo(sv, start, Encode(f), Encode(g));
    FeedTwice(sv, start, Encode(f), Encode(g));
    FeedFirst(sv, start, Encode(f) + Encode(g));
    FeedFirst(sv, start, Encode(f));
    FeedAllSnoc(sv, start, [Encode(f)], Encode(g));
    assert [Encode(f)] + [Encode(g)] == [Encode(f), Encode(g)];
  }

  lemma FrameTells(sv: Server, log: seq<Event>, f: ClientFrame)
    requires Sendable(f, sv.maxFrame) && f.fin && f.op == OP_TEXT
    ensures Run(sv, IDLE, log, EncodeAll([f])) == Told(sv, IDLE, log, f.payload)
  {
    hide Run, Encode, Told;
    BytesAreFrames(sv, IDLE, log, [f]);
    assert [f][1..] == [];
    var o := Told(sv, IDLE, log, f.payload);
    assert o.Open? ==> o == Open(IDLE, o.log, []) by { ToldStays(sv, log, f.payload); }
  }

  lemma ToldStays(sv: Server, log: seq<Event>, message: seq<Byte>)
    ensures var o := Told(sv, IDLE, log, message); o.Open? ==> o == Open(IDLE, o.log, [])
  {
  }

  lemma HangUpTold(x: seq<Byte>, y: seq<Byte>, maxFrame: nat)
    ensures var sv := HangsUpOver(x, maxFrame);
            && Told(sv, IDLE, [], x) == Open(IDLE, [Dispatch(x), HangUp], [])
            && Told(sv, IDLE, [Dispatch(x), HangUp], y) == Open(IDLE, [Dispatch(x), HangUp, Dispatch(y)], [])
  {
    assert [] + [Dispatch(x)] == [Dispatch(x)];
    assert [Dispatch(x)] + [HangUp] == [Dispatch(x), HangUp];
    assert [Dispatch(x), HangUp] + [Dispatch(y)] == [Dispatch(x), HangUp, Dispatch(y)];
    assert [Dispatch(x), HangUp][1] == HangUp;
  }
}
