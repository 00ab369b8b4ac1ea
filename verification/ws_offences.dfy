/** Where reading stops, and why: the first frame of a stream that ends the connection, told from the list of
    frames alone, and what the frames before it mean. */
module WsOffences {
  import opened Options
  import opened WsFrame
  import opened WsRead
  import opened WsChunks
  import opened WsScript

  // ---------------------------------------------------------------- the meaning of a list of frames

  predicate Starts(f: ClientFrame) {
    f.op == OP_TEXT || f.op == OP_BINARY
  }

  predicate CarriesData(f: ClientFrame) {
    Starts(f) || f.op == OP_CONTINUATION
  }

  /** Where the message that frame i may go on with began: the last start before it, if there is one. */
  function Beginning(fs: seq<ClientFrame>, i: nat): int
    requires i <= |fs|
    ensures -1 <= Beginning(fs, i) < i
    ensures Beginning(fs, i) >= 0 ==> Starts(fs[Beginning(fs, i)])
  {
    if i == 0 then -1 else if Starts(fs[i - 1]) then i - 1 else Beginning(fs, i - 1)
  }

  /** It has begun, and none of its frames so far was the last. */
  predicate UnderWay(fs: seq<ClientFrame>, i: nat)
    requires i <= |fs|
  {
    Beginning(fs, i) >= 0 && forall j :: Beginning(fs, i) <= j < i && CarriesData(fs[j]) ==> !fs[j].fin
  }

  /** What the data frames from one place to another carry. */
  function Carried(fs: seq<ClientFrame>, from: nat, to: nat): seq<Byte>
    requires from <= to <= |fs|
  {
    if from == to then []
    else Carried(fs, from, to - 1) + if CarriesData(fs[to - 1]) then fs[to - 1].payload else []
  }

  /** The first two bytes of a close frame are its code, the rest its reason; a shorter one has neither. */
  function Farewell(payload: seq<Byte>): Reason {
    if |payload| < 2 then PeerClosed(1005, [])
    else PeerClosed(payload[0] as nat * 256 + payload[1] as nat, payload[2..])
  }

  /** Why frame i, coming after frames that are in order, ends the connection, if it does: a close frame, a
      reserved opcode, a continuation of nothing, a message begun inside another, one that grows too large,
      or one that is binary. */
  function Offence(fs: seq<ClientFrame>, i: nat, maxFrame: nat): Option<Reason>
    requires i < |fs|
  {
    var f := fs[i];
    if f.op == OP_CLOSE then Some(Farewell(f.payload))
    else if f.op == OP_PING || f.op == OP_PONG then None
    else if !CarriesData(f) then Some(Protocol)
    else if Starts(f) == UnderWay(fs, i) then Some(Protocol)
    else
      var from := if Starts(f) then i else Beginning(fs, i);
      if |Carried(fs, from, i + 1)| > maxFrame then Some(TooLarge)
      else if f.fin && fs[from].op == OP_BINARY then Some(BinaryRejected)
      else None
  }

  /** What frame i makes the server do, if it is in order: answer a ping, or hand on a message. */
  function Means(fs: seq<ClientFrame>, i: nat): seq<Event>
    requires i < |fs|
  {
    var f := fs[i];
    if f.op == OP_PING then [Pong(f.payload)]
    else if f.fin && Starts(f) then [Dispatch(f.payload)]
    else if f.fin && f.op == OP_CONTINUATION && Beginning(fs, i) >= 0
    then [Dispatch(Carried(fs, Beginning(fs, i), i + 1))]
    else []
  }

  function Meant(fs: seq<ClientFrame>, n: nat): seq<Event>
    requires n <= |fs|
  {
    if n == 0 then [] else Meant(fs, n - 1) + Means(fs, n - 1)
  }

  ghost predicate InOrderUpTo(fs: seq<ClientFrame>, n: nat, maxFrame: nat)
    requires n <= |fs|
  {
    forall i :: 0 <= i < n ==> Offence(fs, i, maxFrame).None?
  }

  /** What is to be kept of the message under way. */
  function Kept(fs: seq<ClientFrame>, n: nat): Assembly
    requires n <= |fs|
  {
    if UnderWay(fs, n) then Assembly(true, fs[Beginning(fs, n)].op, Carried(fs, Beginning(fs, n), n)) else IDLE
  }

  // ---------------------------------------------------------------- going on, and stopping

  /** Unless it has stopped, reading goes on with this much of a message. */
  function With(o: Outcome, asm: Assembly): Outcome {
    match o
    case Shut(l) => o
    case Open(_, l, _) => Open(asm, l, [])
  }

  /** Unless it has stopped, reading goes on with these bytes. */
  function Onward(sv: Server, o: Outcome, bytes: seq<Byte>): Outcome {
    match o
    case Shut(l) => o
    case Open(asm, l, _) => Run(sv, asm, l, bytes)
  }

  /** Unless it has stopped, reading stops for this reason. */
  function Stopped(o: Outcome, reason: Reason): Outcome {
    match o
    case Shut(l) => o
    case Open(_, l, _) => Ended(l, reason)
  }

  // ---------------------------------------------------------------- one frame

  function HeaderFor(f: ClientFrame): Header {
    Header(f.fin, f.op, true, f.mask, |f.payload|)
  }

  lemma CarriedMore(fs: seq<ClientFrame>, from: nat, to: nat)
    requires from < to <= |fs|
    ensures Carried(fs, from, to) ==
              Carried(fs, from, to - 1) + if CarriesData(fs[to - 1]) then fs[to - 1].payload else []
  {
  }

  lemma CarriedOne(fs: seq<ClientFrame>, i: nat)
    requires i < |fs| && CarriesData(fs[i])
    ensures Carried(fs, i, i + 1) == fs[i].payload
  {
    assert Carried(fs, i, i) == [] && [] + fs[i].payload == fs[i].payload;
  }

  lemma UnderWayNext(fs: seq<ClientFrame>, i: nat)
    requires i < |fs|
    ensures UnderWay(fs, i + 1) <==>
              if Starts(fs[i]) then !fs[i].fin else UnderWay(fs, i) && (CarriesData(fs[i]) ==> !fs[i].fin)
  {
  }

  lemma KeptNext(fs: seq<ClientFrame>, i: nat)
    requires i < |fs|
    ensures Starts(fs[i]) ==> Kept(fs, i + 1) == if fs[i].fin then IDLE else Assembly(true, fs[i].op, fs[i].payload)
    ensures !CarriesData(fs[i]) ==> Kept(fs, i + 1) == Kept(fs, i)
    ensures fs[i].op == OP_CONTINUATION && UnderWay(fs, i) ==>
              Kept(fs, i + 1) == if fs[i].fin then IDLE
                                 else Kept(fs, i).(msg := Kept(fs, i).msg + fs[i].payload)
  {
    hide UnderWay;
    UnderWayNext(fs, i);
    if Starts(fs[i]) {
      CarriedOne(fs, i);
    } else if Beginning(fs, i) >= 0 {
      CarriedMore(fs, Beginning(fs, i), i + 1);
      assert Carried(fs, Beginning(fs, i), i) + [] == Carried(fs, Beginning(fs, i), i);
    }
    UnderWayBegan(fs, i);
    UnderWayBegan(fs, i + 1);
  }

  lemma UnderWayBegan(fs: seq<ClientFrame>, i: nat)
    requires i <= |fs|
    ensures UnderWay(fs, i) ==> Beginning(fs, i) >= 0
  {
  }

  lemma LargeEnough(fs: seq<ClientFrame>, i: nat)
    requires i < |fs| && UnderWay(fs, i) && fs[i].op == OP_CONTINUATION
    ensures Beginning(fs, i) >= 0
    ensures Carried(fs, Beginning(fs, i), i + 1) == Kept(fs, i).msg + fs[i].payload
  {
    CarriedMore(fs, Beginning(fs, i), i + 1);
  }

  /** A frame that offends ends the connection for that reason; one that does not acts out what it means. */
  lemma FrameActs(sv: Server, fs: seq<ClientFrame>, i: nat, log: seq<Event>)
    requires i < |fs| && Sendable(fs[i], sv.maxFrame)
    ensures var o := Framed(sv, Kept(fs, i), log, HeaderFor(fs[i]), fs[i].payload);
            match Offence(fs, i, sv.maxFrame)
            case Some(reason) => o == Ended(log, reason)
            case None =>
              o == With(Deliver(sv, IDLE, log, Means(fs, i)), Kept(fs, i + 1))
  {
    hide UnderWay, Kept, Told, Ended;
    KeptNext(fs, i);
    UnderWayBegan(fs, i);
    KeptIs(fs, i);
    var f := fs[i];
    if f.op == OP_CLOSE {
      FarewellIs(f.payload);
    } else if f.op == OP_PING {
      OneEvent(sv, log, Pong(f.payload));
      ToldAnyAssembly(sv, log, f.payload, Kept(fs, i));
    } else if Starts(f) {
      CarriedOne(fs, i);
      OneEvent(sv, log, Dispatch(f.payload));
      ToldStays(sv, log, f.payload);
    } else if f.op == OP_CONTINUATION && UnderWay(fs, i) {
      LargeEnough(fs, i);
      OneEvent(sv, log, Dispatch(Carried(fs, Beginning(fs, i), i + 1)));
      ToldStays(sv, log, Carried(fs, Beginning(fs, i), i + 1));
    }
  }

  lemma KeptIs(fs: seq<ClientFrame>, i: nat)
    requires i <= |fs|
    ensures Kept(fs, i).fragged == UnderWay(fs, i)
    ensures UnderWay(fs, i) ==> Beginning(fs, i) >= 0 && Kept(fs, i).op == fs[Beginning(fs, i)].op
  {
  }

  lemma FarewellIs(payload: seq<Byte>)
    ensures Farewell(payload) == CloseReason(payload)
  {
    if |payload| >= 2 {
      TwoBytes(payload[..2]);
    }
  }

  lemma OneEvent(sv: Server, log: seq<Event>, e: Event)
    ensures Deliver(sv, IDLE, log, [e]) == With(ActedOut(sv, IDLE, log, e), IDLE)
  {
    assert [e][1..] == [];
  }

  lemma ToldAnyAssembly(sv: Server, log: seq<Event>, payload: seq<Byte>, asm: Assembly)
    ensures Ponged(sv, asm, log, payload) == With(Ponged(sv, IDLE, log, payload), asm)
  {
  }

  // ---------------------------------------------------------------- all frames

  lemma {:induction false} FramesAct(sv: Server, fs: seq<ClientFrame>, n: nat, log: seq<Event>)
    requires n <= |fs| && AllSendable(fs, sv.maxFrame) && InOrderUpTo(fs, n, sv.maxFrame)
    ensures RunFrames(sv, IDLE, log, fs[..n]) == With(Deliver(sv, IDLE, log, Meant(fs, n)), Kept(fs, n))
    decreases n
  {
    hide Framed, Kept, Offence, Means, RunFrames, Deliver;
    if n == 0 {
      assert fs[..0] == [];
      NothingActs(sv, fs, log);
    } else {
      var f := fs[n - 1];
      FramesAct(sv, fs, n - 1, log);
      assert fs[..n] == fs[..n - 1] + [f];
      RunFramesAppend(sv, IDLE, log, fs[..n - 1], [f]);
      DeliverAppend(sv, IDLE, log, Meant(fs, n - 1), Means(fs, n - 1));
      var o := Deliver(sv, IDLE, log, Meant(fs, n - 1));
      if o.Open? {
        FrameActs(sv, fs, n - 1, o.log);
        OneFrame(sv, Kept(fs, n - 1), o.log, f);
      }
    }
  }

  lemma NothingActs(sv: Server, fs: seq<ClientFrame>, log: seq<Event>)
    ensures RunFrames(sv, IDLE, log, []) == Open(IDLE, log, []) == Deliver(sv, IDLE, log, [])
    ensures Kept(fs, 0) == IDLE
  {
  }

  lemma OneFrame(sv: Server, asm: Assembly, log: seq<Event>, f: ClientFrame)
    ensures RunFrames(sv, asm, log, [f]) == Framed(sv, asm, log, HeaderFor(f), f.payload)
  {
    assert [f][1..] == [];
  }

  lemma {:induction false} EncodeAllAppend(one: seq<ClientFrame>, two: seq<ClientFrame>)
    requires forall i :: 0 <= i < |one| ==> |one[i].mask| == 4 && one[i].op < 16
    requires forall i :: 0 <= i < |two| ==> |two[i].mask| == 4 && two[i].op < 16
    ensures EncodeAll(one + two) == EncodeAll(one) + EncodeAll(two)
    decreases |one|
  {
    hide Encode;
    if one == [] {
      assert one + two == two && [] + EncodeAll(two) == EncodeAll(two);
    } else {
      assert (one + two)[1..] == one[1..] + two;
      EncodeAllAppend(one[1..], two);
      assert Encode(one[0]) + (EncodeAll(one[1..]) + EncodeAll(two))
          == Encode(one[0]) + EncodeAll(one[1..]) + EncodeAll(two);
    }
  }

  /** The frames up to some place, whatever bytes come behind them. */
  lemma ReadUpTo(sv: Server, fs: seq<ClientFrame>, n: nat, log: seq<Event>, tail: seq<Byte>)
    requires n <= |fs| && AllSendable(fs, sv.maxFrame) && InOrderUpTo(fs, n, sv.maxFrame)
    ensures Run(sv, IDLE, log, EncodeAll(fs[..n]) + tail) ==
              Onward(sv, With(Deliver(sv, IDLE, log, Meant(fs, n)), Kept(fs, n)), tail)
  {
    hide Run, RunFrames, Deliver, Kept, Meant, EncodeAll;
    BytesAreFrames(sv, IDLE, log, fs[..n]);
    FramesAct(sv, fs, n, log);
    RunResumes(sv, IDLE, log, EncodeAll(fs[..n]), tail);
    assert [] + tail == tail;
  }

  /** The first frame that offends ends the connection for its reason: nothing behind it is read, and all
      before it is acted out, for every server, up to the point where the server itself stops. */
  lemma StopsAtFirstOffence(sv: Server, fs: seq<ClientFrame>, k: nat, log: seq<Event>, tail: seq<Byte>)
    requires k < |fs| && AllSendable(fs, sv.maxFrame)
    requires InOrderUpTo(fs, k, sv.maxFrame) && Offence(fs, k, sv.maxFrame).Some?
    ensures Run(sv, IDLE, log, EncodeAll(fs) + tail) ==
              Stopped(Deliver(sv, IDLE, log, Meant(fs, k)), Offence(fs, k, sv.maxFrame).value)
  {
    hide Run, Deliver, Kept, Meant, EncodeAll, Offence, Framed, Ended, Encode;
    var f, behind := fs[k], EncodeAll(fs[k + 1..]) + tail;
    assert fs == fs[..k] + ([f] + fs[k + 1..]);
    EncodeAllAppend(fs[..k], [f] + fs[k + 1..]);
    EncodeAllAppend([f], fs[k + 1..]);
    EncodeOne(f);
    assert EncodeAll(fs) + tail == EncodeAll(fs[..k]) + (Encode(f) + behind);
    ReadUpTo(sv, fs, k, log, Encode(f) + behind);
    var o := Deliver(sv, IDLE, log, Meant(fs, k));
    if o.Open? {
      FrameActs(sv, fs, k, o.log);
      FrameRuns(sv, Kept(fs, k), o.log, f, behind);
      EndedIsShut(o.log, Offence(fs, k, sv.maxFrame).value);
    }
  }

  lemma EndedIsShut(log: seq<Event>, reason: Reason)
    ensures Ended(log, reason).Shut?
  {
  }

  lemma EncodeOne(f: ClientFrame)
    requires |f.mask| == 4 && f.op < 16
    ensures EncodeAll([f]) == Encode(f)
  {
    hide Encode;
    assert [f][1..] == [] && Encode(f) + [] == Encode(f);
  }

  lemma FrameRuns(sv: Server, asm: Assembly, log: seq<Event>, f: ClientFrame, behind: seq<Byte>)
    requires Sendable(f, sv.maxFrame)
    ensures Run(sv, asm, log, Encode(f) + behind) ==
              Onward(sv, Framed(sv, asm, log, HeaderFor(f), f.payload), behind)
  {
    hide HeaderOf, Encode, Framed, Unmask, Run;
    ParsesBack(f, behind, sv.maxFrame);
    RunStep(sv, asm, log, Encode(f) + behind);
  }

  /** Frames that are all in order are all acted out, and what follows them is read next. */
  lemma ReadsOn(sv: Server, fs: seq<ClientFrame>, log: seq<Event>, tail: seq<Byte>)
    requires AllSendable(fs, sv.maxFrame) && InOrderUpTo(fs, |fs|, sv.maxFrame)
    ensures Run(sv, IDLE, log, EncodeAll(fs) + tail) ==
              Onward(sv, With(Deliver(sv, IDLE, log, Meant(fs, |fs|)), Kept(fs, |fs|)), tail)
  {
    hide Run, Deliver, Kept, Meant, EncodeAll;
    assert fs[..|fs|] == fs;
    ReadUpTo(sv, fs, |fs|, log, tail);
  }

  /** Bytes that cannot be a frame end the connection: because a frame is announced that is too large, or
      because the protocol is broken. */
  lemma BadBytesEnd(sv: Server, fs: seq<ClientFrame>, log: seq<Event>, tail: seq<Byte>)
    requires AllSendable(fs, sv.maxFrame) && InOrderUpTo(fs, |fs|, sv.maxFrame) && HeaderOf(tail, sv.maxFrame).Bad?
    ensures Run(sv, IDLE, log, EncodeAll(fs) + tail) ==
              Stopped(Deliver(sv, IDLE, log, Meant(fs, |fs|)),
                      if HeaderOf(tail, sv.maxFrame).error == FrameTooLarge then TooLarge else Protocol)
  {
    hide Deliver, Kept, Meant, EncodeAll, HeaderOf, Ended;
    ReadsOn(sv, fs, log, tail);
  }

  /** Whatever is under way, a close frame closes the connection with its code and reason, and nothing
      behind it is read. */
  lemma CloseFrameCloses(sv: Server, asm: Assembly, log: seq<Event>, f: ClientFrame, behind: seq<Byte>)
    requires Sendable(f, sv.maxFrame) && f.op == OP_CLOSE && !HungUp(log)
    ensures Run(sv, asm, log, Encode(f) + behind) == Shut(log + [Close(Farewell(f.payload))])
  {
    hide Run, Encode, HungUp;
    FrameRuns(sv, asm, log, f, behind);
    FarewellIs(f.payload);
  }

  // ---------------------------------------------------------------- a server that does not stop by itself

  lemma {:induction false} MeantServed(fs: seq<ClientFrame>, n: nat)
    requires n <= |fs|
    ensures Served(Meant(fs, n))
    decreases n
  {
    hide Means;
    if n > 0 {
      MeantServed(fs, n - 1);
      MeansServed(fs, n - 1);
    }
  }

  lemma MeansServed(fs: seq<ClientFrame>, i: nat)
    requires i < |fs|
    ensures Served(Means(fs, i))
  {
  }

  /** However the bytes are cut, a server that neither closes nor hangs up does all that the frames before
      the first offence mean, and then closes for the reason of that offence; if there is none, it does all
      that they mean and goes on, with what there is of an unfinished message. */
  lemma ReadsUntilOffence(sv: Server, fs: seq<ClientFrame>, k: nat, chunks: seq<seq<Byte>>)
    requires AllSendable(fs, sv.maxFrame) && Patient(sv)
    requires k <= |fs| && InOrderUpTo(fs, k, sv.maxFrame) && (k < |fs| ==> Offence(fs, k, sv.maxFrame).Some?)
    requires chunks != [] && Concat(chunks) == EncodeAll(fs)
    ensures FeedAll(sv, Open(IDLE, [], []), chunks) ==
              if k < |fs| then Shut(Meant(fs, k) + [Close(Offence(fs, k, sv.maxFrame).value)])
              else Open(Kept(fs, k), Meant(fs, k), [])
  {
    hide Run, HungUp, Deliver, Kept, Meant, EncodeAll, Offence, Patient, Concat;
    var start, bytes := Open(IDLE, [], []), EncodeAll(fs);
    StartsLive();
    ChunkingIndependence(sv, start, chunks);
    assert [] + bytes == bytes && bytes + [] == bytes;
    MeantServed(fs, k);
    PatientDelivers(sv, [], Meant(fs, k));
    assert [] + Meant(fs, k) == Meant(fs, k);
    if k < |fs| {
      StopsAtFirstOffence(sv, fs, k, [], []);
      HungUpMore(Meant(fs, k), Close(Offence(fs, k, sv.maxFrame).value));
    } else {
      ReadsOn(sv, fs, [], []);
      NothingRuns(sv, Kept(fs, k), Meant(fs, k));
    }
  }

  // ---------------------------------------------------------------- the server's own part

  /** What there is of a history is as the server would have it. */
  ghost predicate ObeysAt(sv: Server, log: seq<Event>, i: nat, open: bool)
    requires i < |log|
  {
    match log[i]
    case Dispatch(_) =>
      && (sv.hangs(log[..i + 1]) && !HungUp(log[..i + 1]) ==> i + 1 < |log| && log[i + 1].HangUp?)
      && (sv.closes(log[..i + 1]) ==>
            && !open
            && if HungUp(log[..i + 1]) then i + 1 == |log|
               else i + 2 == |log| && log[i + 1] == if sv.hangs(log[..i + 1]) then HangUp else Close(Policy))
    case HangUp => i > 0 && log[i - 1].Dispatch? && sv.hangs(log[..i])
    case Pong(_) => !HungUp(log[..i]) && !sv.pongFails(log[..i])
    case Close(reason) =>
      && (reason == Policy ==> i > 0 && log[i - 1].Dispatch? && sv.closes(log[..i]))
      && (reason == WriteFailed ==> sv.pongFails(log[..i]))
  }

  ghost predicate Obeys(sv: Server, from: nat, log: seq<Event>, open: bool) {
    forall i :: from <= i < |log| ==> ObeysAt(sv, log, i, open)
  }

  ghost predicate Obedient(sv: Server, log: seq<Event>, o: Outcome) {
    log <= o.log && Obeys(sv, |log|, o.log, o.Open?)
  }

  /** In every history of the read path, and after it: a handler that hangs up has hung up at once, one that
      asks for a close gets it at once and is handed nothing more, and a pong is written exactly if it can be.
      Nothing of the kind happens unasked. */
  lemma {:induction false} HandlersAreObeyed(sv: Server, asm: Assembly, log: seq<Event>, b: seq<Byte>)
    ensures Obedient(sv, log, Run(sv, asm, log, b))
    decreases |b|
  {
    hide HeaderOf, Run, First, FrameEnd, Obeys;
    if WholeFrame(b, sv.maxFrame) {
      RunStep(sv, asm, log, b);
      FirstObeys(sv, asm, log, b);
      var o := First(sv, asm, log, b);
      if o.Open? {
        var rest := b[FrameEnd(b, sv.maxFrame)..];
        HandlersAreObeyed(sv, o.asm, o.log, rest);
        ObeysMore(sv, |log|, o.log, Run(sv, o.asm, o.log, rest).log, Run(sv, o.asm, o.log, rest).Open?);
      }
    } else {
      RunStops(sv, asm, log, b);
      EndedObeys(sv, log, TooLarge);
      EndedObeys(sv, log, Protocol);
      StayingObeys(sv, log, asm, b);
    }
  }

  lemma ObeysMore(sv: Server, from: nat, log: seq<Event>, longer: seq<Event>, open: bool)
    requires from <= |log| && log <= longer && Obeys(sv, from, log, true) && Obeys(sv, |log|, longer, open)
    ensures Obeys(sv, from, longer, open)
  {
    hide HungUp;
    forall i | from <= i < |longer|
      ensures ObeysAt(sv, longer, i, open)
    {
      if i < |log| {
        assert ObeysAt(sv, log, i, true);
        assert longer[..i] == log[..i] && longer[..i + 1] == log[..i + 1];
      }
    }
  }

  lemma EndedObeys(sv: Server, log: seq<Event>, reason: Reason)
    requires reason != Policy && (reason == WriteFailed ==> HungUp(log) || sv.pongFails(log))
    ensures Obedient(sv, log, Ended(log, reason))
  {
    hide HungUp;
    var more := log + [Close(reason)];
    assert more[..|log|] == log;
  }

  lemma PongedObeys(sv: Server, asm: Assembly, log: seq<Event>, payload: seq<Byte>)
    ensures Obedient(sv, log, Ponged(sv, asm, log, payload))
  {
    hide HungUp, Obeys;
    if HungUp(log) || sv.pongFails(log) {
      EndedObeys(sv, log, WriteFailed);
    } else {
      PongObeys(sv, log, payload);
    }
  }

  lemma PongObeys(sv: Server, log: seq<Event>, payload: seq<Byte>)
    requires !HungUp(log) && !sv.pongFails(log)
    ensures Obeys(sv, |log|, log + [Pong(payload)], true)
  {
    hide HungUp;
    assert (log + [Pong(payload)])[..|log|] == log;
  }

  lemma ToldObeys(sv: Server, asm: Assembly, log: seq<Event>, message: seq<Byte>)
    ensures Obedient(sv, log, Told(sv, asm, log, message))
  {
    hide HungUp;
    var told := log + [Dispatch(message)];
    HungUpMore(log, Dispatch(message));
    HungUpMore(told, HangUp);
    var l := Told(sv, asm, log, message).log;
    assert l[..|log| + 1] == told;
    forall i | |log| <= i < |l|
      ensures ObeysAt(sv, l, i, Told(sv, asm, log, message).Open?)
    {
      assert i == |log| || i == |log| + 1;
    }
  }

  lemma FirstObeys(sv: Server, asm: Assembly, log: seq<Event>, b: seq<Byte>)
    requires WholeFrame(b, sv.maxFrame)
    ensures Obedient(sv, log, First(sv, asm, log, b))
  {
    hide HeaderOf, Unmask, Told, Ponged, Ended, Obedient, HungUp;
    HeaderBounds(b, sv.maxFrame);
    var h, hlen := HeaderOf(b, sv.maxFrame).h, HeaderOf(b, sv.maxFrame).hlen;
    var payload := Unmask(b[hlen..hlen + h.length], h.mask);
    forall any, rest
      ensures Obedient(sv, log, Open(any, log, rest))
    {
      StayingObeys(sv, log, any, rest);
    }
    PongedObeys(sv, asm, log, payload);
    ToldObeys(sv, IDLE, log, payload);
    ToldObeys(sv, IDLE, log, asm.msg + payload);
    EndedObeys(sv, log, Protocol);
    EndedObeys(sv, log, TooLarge);
    EndedObeys(sv, log, BinaryRejected);
    EndedObeys(sv, log, CloseReason(payload));
  }

  lemma StayingObeys(sv: Server, log: seq<Event>, asm: Assembly, rest: seq<Byte>)
    ensures Obedient(sv, log, Open(asm, log, rest))
  {
  }
}
