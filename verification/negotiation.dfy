/** Offer and answer between two peers. One of them, the initiator, makes every offer; the other asks
    it to. Each side batches requests in a microtask and queues those that come during an exchange.
    Promises settle, microtasks run and frames arrive in any order; frames stay in order. */
module Negotiation {

  // ---------------------------------------------------------------- one negotiator

  datatype Flags = Flags(batched: bool, negotiating: bool, queued: bool, first: bool)

  datatype Effect = Nothing | CreateAnOffer | AskForOffer

  const FRESH: Flags := Flags(false, false, false, true)

  function Needed(f: Flags): Flags {
    f.(batched := true)
  }

  function Negotiated(initiator: bool, f: Flags): (Flags, Effect) {
    if f.negotiating then (f.(queued := true), Nothing)
    else (f.(negotiating := true), if initiator then CreateAnOffer else AskForOffer)
  }

  /** The microtask that needsNegotiation queued. */
  function Flushed(initiator: bool, f: Flags): (Flags, Effect) {
    var f' := f.(batched := false);
    if initiator || !f.first then
      var (g, effect) := Negotiated(initiator, f');
      (g.(first := false), effect)
    else (f'.(first := false), Nothing)
  }

  function Stabilized(f: Flags): Flags {
    var f' := f.(negotiating := false);
    if f.queued then Needed(f'.(queued := false)) else f'
  }

  class Negotiator {
    const initiator: bool
    var batched: bool
    var negotiating: bool
    var queued: bool
    var first: bool
    /** Microtasks queued and not yet run. */
    var microtasks: nat
    /** What it has asked the connection and the peer to do, and how often it reported stability. */
    var effects: seq<Effect>
    var stable: nat

    ghost function View(): Flags
      reads this
    {
      Flags(batched, negotiating, queued, first)
    }

    ghost predicate Valid()
      reads this
    {
      microtasks == if batched then 1 else 0
    }

    constructor (initiator: bool)
      ensures Valid() && View() == FRESH && this.initiator == initiator && effects == [] && stable == 0
    {
      this.initiator := initiator;
      batched, negotiating, queued, first := false, false, false, true;
      microtasks, effects, stable := 0, [], 0;
    }

    method NeedsNegotiation()
      requires Valid()
      modifies this`batched, this`microtasks
      ensures Valid() && View() == Needed(old(View()))
    {
      if batched {
        return;
      }
      batched := true;
      microtasks := microtasks + 1;
    }

    method RunMicrotask()
      requires Valid() && microtasks > 0
      modifies this
      ensures Valid() && View() == Flushed(initiator, old(View())).0 && stable == old(stable)
      ensures var effect := Flushed(initiator, old(View())).1;
              effects == if effect.Nothing? then old(effects) else old(effects) + [effect]
    {
      microtasks := microtasks - 1;
      batched := false;
      if initiator || !first {
        Negotiate();
      }
      first := false;
    }

    method Negotiate()
      requires Valid()
      modifies this`negotiating, this`queued, this`effects
      ensures Valid() && View() == Negotiated(initiator, old(View())).0
      ensures var effect := Negotiated(initiator, old(View())).1;
              effects == if effect.Nothing? then old(effects) else old(effects) + [effect]
    {
      if negotiating {
        queued := true;
        return;
      }
      negotiating := true;
      if initiator {
        effects := effects + [CreateAnOffer];
      } else {
        effects := effects + [AskForOffer];
      }
    }

    method HandleStable()
      requires Valid()
      modifies this
      ensures Valid() && View() == Stabilized(old(View())) && effects == old(effects)
      ensures stable == if old(queued) then old(stable) else old(stable) + 1
    {
      negotiating := false;
      if queued {
        queued := false;
        NeedsNegotiation();
        return;
      }
      stable := stable + 1;
    }
  }

  // ---------------------------------------------------------------- two peers

  /** Section 3.2 of RFC 8829, without provisional answers. */
  datatype Signaling = Stable | HaveLocalOffer | HaveRemoteOffer

  /** An asynchronous function of a peer, by what it waits for. */
  datatype Job =
    | CreateOffer | SetLocalOffer | SendOffer
    | ApplyOffer | MakeAnswer | SetLocalAnswer | SendAnswer
    | ApplyAnswer

  datatype Frame = Offer | Answer | Renegotiate | Transceiver

  datatype Peer = Peer(flags: Flags, signaling: Signaling, jobs: seq<Job>, failed: bool)

  datatype Side = Initiator | Responder

  /** asked: somebody has asked for an offer since the last one was started. */
  datatype System = System(a: Peer, b: Peer, toB: seq<Frame>, toA: seq<Frame>, asked: bool)

  datatype Step =
    | Request(side: Side)
    | AskTransceiver
    | Microtask(side: Side)
    | Settle(side: Side, k: nat, removals: bool)
    | Receive(side: Side)

  const START: System :=
    System(Peer(Needed(FRESH), Stable, [], false), Peer(Needed(FRESH), Stable, [], false), [], [], true)

  function At(s: System, side: Side): Peer {
    if side.Initiator? then s.a else s.b
  }

  function Put(s: System, side: Side, p: Peer): System {
    if side.Initiator? then s.(a := p) else s.(b := p)
  }

  function Emit(s: System, from: Side, f: Frame): System {
    if from.Initiator? then s.(toB := s.toB + [f]) else s.(toA := s.toA + [f])
  }

  /** A request is lost on purpose only at the responder, before its first microtask has run. */
  function Requested(s: System, side: Side): System {
    var p := At(s, side);
    Put(s, side, p.(flags := Needed(p.flags))).(asked := s.asked || side.Initiator? || !p.flags.first)
  }

  function Ran(s: System, side: Side): System {
    var p := At(s, side);
    if !p.flags.batched then s
    else
      var (f, effect) := Flushed(side.Initiator?, p.flags);
      match effect
      case Nothing => Put(s, side, p.(flags := f))
      case CreateAnOffer => Put(s, side, p.(flags := f, jobs := p.jobs + [CreateOffer])).(asked := false)
      case AskForOffer => Emit(Put(s, side, p.(flags := f)), side, Renegotiate)
  }

  /** signalingState became stable; removals says that track removals were waiting for it. */
  function BecameStable(s: System, side: Side, removals: bool): System {
    var p := At(s, side);
    var s' := Put(s, side, p.(flags := Stabilized(p.flags), signaling := Stable));
    if removals then Requested(s', side) else s'
  }

  function WithJob(p: Peer, k: nat, job: Job): Peer
    requires k < |p.jobs|
  {
    p.(jobs := p.jobs[k := job])
  }

  function Done(p: Peer, k: nat): Peer
    requires k < |p.jobs|
  {
    p.(jobs := p.jobs[..k] + p.jobs[k + 1..])
  }

  /** A description that the signaling state does not allow ends the peer. */
  function Fail(s: System, side: Side): System {
    Put(s, side, At(s, side).(failed := true))
  }

  function Settled(s: System, side: Side, k: nat, removals: bool): System
    requires k < |At(s, side).jobs|
  {
    var p := At(s, side);
    match p.jobs[k]
    case CreateOffer => Put(s, side, WithJob(p, k, SetLocalOffer))
    case SetLocalOffer =>
      if p.signaling.HaveRemoteOffer? then Fail(s, side)
      else Put(s, side, WithJob(p, k, SendOffer).(signaling := HaveLocalOffer))
    case SendOffer => Emit(Put(s, side, Done(p, k)), side, Offer)
    case ApplyOffer =>
      if p.signaling.HaveLocalOffer? then Fail(s, side)
      else Put(s, side, WithJob(p, k, MakeAnswer).(signaling := HaveRemoteOffer))
    case MakeAnswer => Put(s, side, WithJob(p, k, SetLocalAnswer))
    case SetLocalAnswer =>
      if !p.signaling.HaveRemoteOffer? then Fail(s, side)
      else BecameStable(Put(s, side, WithJob(p, k, SendAnswer)), side, removals)
    case SendAnswer => Emit(Put(s, side, Done(p, k)), side, Answer)
    case ApplyAnswer =>
      if !p.signaling.HaveLocalOffer? then Fail(s, side)
      else BecameStable(Put(s, side, Done(p, k)), side, removals)
  }

  function Inbox(s: System, side: Side): seq<Frame> {
    if side.Initiator? then s.toA else s.toB
  }

  function Received(s: System, side: Side): System
    requires Inbox(s, side) != []
  {
    var p := At(s, side);
    var s' := if side.Initiator? then s.(toA := s.toA[1..]) else s.(toB := s.toB[1..]);
    match Inbox(s, side)[0]
    case Offer => Put(s', side, p.(jobs := p.jobs + [ApplyOffer]))
    case Answer => Put(s', side, p.(jobs := p.jobs + [ApplyAnswer]))
    case Renegotiate => if side.Initiator? then Put(s', side, p.(flags := Needed(p.flags))) else s'
    case Transceiver => if side.Initiator? then Put(s', side, p.(flags := Needed(p.flags))) else s'
  }

  predicate Enabled(s: System, step: Step) {
    match step
    case Request(_) => true
    case AskTransceiver => true
    case Microtask(side) => At(s, side).flags.batched
    case Settle(side, k, _) => k < |At(s, side).jobs|
    case Receive(side) => Inbox(s, side) != []
  }

  function Next(s: System, step: Step): System
    requires Enabled(s, step)
  {
    match step
    case Request(side) => Requested(s, side)
    case AskTransceiver => Emit(s, Responder, Transceiver).(asked := true)
    case Microtask(side) => Ran(s, side)
    case Settle(side, k, removals) => Settled(s, side, k, removals)
    case Receive(side) => Received(s, side)
  }

  // ---------------------------------------------------------------- one exchange at a time

  function Count(frames: seq<Frame>, f: Frame): nat {
    if frames == [] then 0 else Count(frames[1..], f) + if frames[0] == f then 1 else 0
  }

  lemma {:induction false} CountAppend(frames: seq<Frame>, g: Frame, f: Frame)
    ensures Count(frames + [g], f) == Count(frames, f) + if g == f then 1 else 0
    decreases |frames|
  {
    if frames == [] {
      assert ([g])[1..] == [];
    } else {
      assert (frames + [g])[1..] == frames[1..] + [g];
      CountAppend(frames[1..], g, f);
    }
  }

  /** How far the exchange under way has come. */
  datatype Stage =
    | Quiet
    | Creating | SettingOffer | SendingOffer | OfferInFlight
    | ApplyingOffer | MakingAnswer | SettingAnswer | SendingAnswer | AnswerInFlight | ApplyingAnswer

  function InitiatorJobs(stage: Stage): seq<Job> {
    match stage
    case Creating => [CreateOffer]
    case SettingOffer => [SetLocalOffer]
    case SendingOffer => [SendOffer]
    case ApplyingAnswer => [ApplyAnswer]
    case _ => []
  }

  function ResponderJobs(stage: Stage): seq<Job> {
    match stage
    case ApplyingOffer => [ApplyOffer]
    case MakingAnswer => [MakeAnswer]
    case SettingAnswer => [SetLocalAnswer]
    case SendingAnswer => [SendAnswer]
    case _ => []
  }

  function InitiatorSignaling(stage: Stage): Signaling {
    if stage.Quiet? || stage.Creating? || stage.SettingOffer? then Stable else HaveLocalOffer
  }

  function ResponderSignaling(stage: Stage): Signaling {
    if stage.MakingAnswer? || stage.SettingAnswer? then HaveRemoteOffer else Stable
  }

  /** The responder has still to become stable in this exchange. */
  predicate Unanswered(stage: Stage) {
    !stage.Quiet? && !stage.SendingAnswer? && !stage.AnswerInFlight? && !stage.ApplyingAnswer?
  }

  /** The whole system is at this stage of one exchange, and of no other. */
  ghost predicate InStage(s: System, stage: Stage) {
    && !s.a.failed && !s.b.failed
    && s.a.flags.negotiating == !stage.Quiet?
    && s.a.jobs == InitiatorJobs(stage) && s.b.jobs == ResponderJobs(stage)
    && s.a.signaling == InitiatorSignaling(stage) && s.b.signaling == ResponderSignaling(stage)
    && Count(s.toB, Offer) == (if stage.OfferInFlight? then 1 else 0) && Count(s.toB, Answer) == 0
    && Count(s.toA, Answer) == (if stage.AnswerInFlight? then 1 else 0) && Count(s.toA, Offer) == 0
  }

  /** Work that will bring the responder back to stable once more. */
  ghost predicate ResponderServed(s: System, stage: Stage) {
    Count(s.toA, Renegotiate) > 0 || s.a.flags.batched || s.a.flags.queued || Unanswered(stage)
  }

  /** Work that will start an offer. */
  ghost predicate OfferComing(s: System) {
    || s.a.flags.batched || s.a.flags.queued
    || Count(s.toA, Renegotiate) > 0 || Count(s.toA, Transceiver) > 0
    || (s.b.flags.batched && !s.b.flags.first) || s.b.flags.queued
  }

  /** Nothing queued is forgotten, and nobody waits for something that is not coming. */
  ghost predicate NothingStuck(s: System, stage: Stage) {
    && (s.a.flags.queued ==> s.a.flags.negotiating)
    && (s.b.flags.queued ==> s.b.flags.negotiating && !s.b.flags.first)
    && (s.b.flags.negotiating ==> ResponderServed(s, stage))
    && (s.asked ==> OfferComing(s))
  }

  ghost predicate Sound(s: System, stage: Stage) {
    InStage(s, stage) && NothingStuck(s, stage)
  }

  function StageAfter(s: System, stage: Stage, step: Step): Stage
    requires Enabled(s, step)
  {
    match step
    case Request(_) => stage
    case AskTransceiver => stage
    case Microtask(side) => if side.Initiator? && stage.Quiet? then Creating else stage
    case Settle(_, _, _) =>
      (match stage
       case Creating => SettingOffer
       case SettingOffer => SendingOffer
       case SendingOffer => OfferInFlight
       case ApplyingOffer => MakingAnswer
       case MakingAnswer => SettingAnswer
       case SettingAnswer => SendingAnswer
       case SendingAnswer => AnswerInFlight
       case _ => Quiet)
    case Receive(side) =>
      if Inbox(s, side)[0].Offer? then ApplyingOffer
      else if Inbox(s, side)[0].Answer? then ApplyingAnswer
      else stage
  }

  lemma RequestKeeps(s: System, stage: Stage, side: Side)
    requires Sound(s, stage)
    ensures Sound(Requested(s, side), stage)
  {
    hide Count;
  }

  lemma AppendCounts(frames: seq<Frame>, g: Frame)
    ensures forall f :: Count(frames + [g], f) == Count(frames, f) + if g == f then 1 else 0
  {
    forall f
      ensures Count(frames + [g], f) == Count(frames, f) + if g == f then 1 else 0
    {
      CountAppend(frames, g, f);
    }
  }

  lemma TransceiverKeeps(s: System, stage: Stage)
    requires Sound(s, stage)
    ensures Sound(Next(s, AskTransceiver), stage)
  {
    hide Count;
    AppendCounts(s.toA, Transceiver);
  }

  lemma RanKeeps(s: System, stage: Stage, side: Side)
    requires Sound(s, stage) && At(s, side).flags.batched
    ensures Sound(Ran(s, side), StageAfter(s, stage, Microtask(side)))
  {
    hide Count;
    AppendCounts(s.toA, Renegotiate);
  }

  lemma ReceivedKeeps(s: System, stage: Stage, side: Side)
    requires Sound(s, stage) && Inbox(s, side) != []
    ensures Sound(Received(s, side), StageAfter(s, stage, Receive(side)))
  {
    hide Count;
    TailCounts(Inbox(s, side));
  }

  lemma TailCounts(frames: seq<Frame>)
    requires frames != []
    ensures forall f :: Count(frames[1..], f) == Count(frames, f) - if frames[0] == f then 1 else 0
  {
  }

  lemma StabilizedKeeps(s: System, side: Side, stage: Stage, after: Stage, removals: bool)
    requires NothingStuck(s, stage)
    requires if side.Initiator? then stage.ApplyingAnswer? && after.Quiet?
             else stage.SettingAnswer? && after.SendingAnswer?
    ensures NothingStuck(BecameStable(s, side, removals), after)
  {
    hide Count;
  }

  lemma InitiatorSettles(s: System, stage: Stage, k: nat, removals: bool)
    requires Sound(s, stage) && k < |s.a.jobs|
    ensures Sound(Settled(s, Initiator, k, removals), StageAfter(s, stage, Settle(Initiator, k, removals)))
  {
    hide Count;
    AppendCounts(s.toB, Offer);
    if s.a.jobs[k].ApplyAnswer? {
      StabilizedKeeps(Put(s, Initiator, Done(s.a, k)), Initiator, stage, Quiet, removals);
    }
  }

  lemma ResponderSettles(s: System, stage: Stage, k: nat, removals: bool)
    requires Sound(s, stage) && k < |s.b.jobs|
    ensures Sound(Settled(s, Responder, k, removals), StageAfter(s, stage, Settle(Responder, k, removals)))
  {
    hide Count;
    AppendCounts(s.toA, Answer);
    if s.b.jobs[k].SetLocalAnswer? {
      StabilizedKeeps(Put(s, Responder, WithJob(s.b, k, SendAnswer)), Responder, stage, SendingAnswer, removals);
    }
  }

  lemma NextKeeps(s: System, stage: Stage, step: Step)
    requires Sound(s, stage) && Enabled(s, step)
    ensures Sound(Next(s, step), StageAfter(s, stage, step))
  {
    hide Sound, StageAfter, Ran, Settled, Received, Requested;
    match step
    case Request(side) =>
      RequestKeeps(s, stage, side);
      assert StageAfter(s, stage, step) == stage by { SameStage(s, stage, step); }
    case AskTransceiver =>
      TransceiverKeeps(s, stage);
      SameStage(s, stage, step);
    case Microtask(side) => RanKeeps(s, stage, side);
    case Settle(side, k, removals) =>
      if side.Initiator? {
        InitiatorSettles(s, stage, k, removals);
      } else {
        ResponderSettles(s, stage, k, removals);
      }
    case Receive(side) => ReceivedKeeps(s, stage, side);
  }

  lemma SameStage(s: System, stage: Stage, step: Step)
    requires step.Request? || step.AskTransceiver?
    ensures StageAfter(s, stage, step) == stage
  {
  }

  // ---------------------------------------------------------------- runs

  /** Steps that are not enabled do nothing. */
  function Run(steps: seq<Step>): System {
    if steps == [] then START
    else
      var s, step := Run(steps[..|steps| - 1]), steps[|steps| - 1];
      if Enabled(s, step) then Next(s, step) else s
  }

  lemma {:induction false} EveryRunIsSound(steps: seq<Step>) returns (stage: Stage)
    ensures Sound(Run(steps), stage)
    decreases |steps|
  {
    hide Sound, StageAfter, Next;
    if steps == [] {
      stage := Quiet;
      assert Sound(START, Quiet) by { StartIsSound(); }
    } else {
      stage := EveryRunIsSound(steps[..|steps| - 1]);
      var s, step := Run(steps[..|steps| - 1]), steps[|steps| - 1];
      if Enabled(s, step) {
        NextKeeps(s, stage, step);
        stage := StageAfter(s, stage, step);
      }
    }
  }

  lemma StartIsSound()
    ensures Sound(START, Quiet)
  {
  }

  /** Offers being created or in flight, answers being made, in flight or being applied. */
  function Exchanges(s: System): nat {
    |s.a.jobs| + Count(s.toB, Offer) + |s.b.jobs| + Count(s.toA, Answer)
  }

  /** At most one exchange is ever under way, exactly while the initiator negotiates; the responder
      never offers, and no description ever meets a signaling state that does not allow it. */
  lemma NoGlare(steps: seq<Step>)
    ensures var s := Run(steps);
            && Exchanges(s) == (if s.a.flags.negotiating then 1 else 0)
            && !s.a.failed && !s.b.failed
            && Count(s.toA, Offer) == 0 && Count(s.toB, Answer) == 0
            && (forall k :: 0 <= k < |s.b.jobs| ==>
                  !s.b.jobs[k].CreateOffer? && !s.b.jobs[k].SetLocalOffer? && !s.b.jobs[k].SendOffer?)
  {
    hide Count;
    var stage := EveryRunIsSound(steps);
  }

  /** An offer reaches the responder in stable, an answer the initiator in have-local-offer. */
  lemma DescriptionsFit(steps: seq<Step>, side: Side)
    requires Inbox(Run(steps), side) != []
    ensures var s := Run(steps);
            && (Inbox(s, side)[0].Offer? ==> side.Responder? && s.b.signaling.Stable? && s.b.jobs == [])
            && (Inbox(s, side)[0].Answer? ==> side.Initiator? && s.a.signaling.HaveLocalOffer? && s.a.jobs == [])
  {
    hide Count;
    var stage := EveryRunIsSound(steps);
    TailCounts(Inbox(Run(steps), side));
  }

  // ---------------------------------------------------------------- nothing is lost

  /** Nobody has anything left to do. */
  predicate Quiescent(s: System) {
    && s.a.jobs == [] && s.b.jobs == [] && s.toA == [] && s.toB == []
    && !s.a.flags.batched && !s.b.flags.batched
  }

  /** At rest nobody negotiates or has anything queued, both are stable, and every request that was
      not discarded has been followed by an offer. */
  lemma AtRestNothingIsOwed(steps: seq<Step>)
    requires Quiescent(Run(steps))
    ensures var s := Run(steps);
            && !s.a.flags.negotiating && !s.a.flags.queued && !s.b.flags.negotiating && !s.b.flags.queued
            && s.a.signaling.Stable? && s.b.signaling.Stable? && !s.asked
  {
    var stage := EveryRunIsSound(steps);
    assert stage.Quiet?;
  }

  /** A step that nobody asked for: a microtask, a promise that settles, a frame that arrives. */
  predicate Internal(s: System, step: Step) {
    Enabled(s, step) && !step.Request? && !step.AskTransceiver? && !(step.Settle? && step.removals)
  }

  lemma SomethingToDo(s: System) returns (step: Step)
    requires !Quiescent(s)
    ensures Internal(s, step)
  {
    step := if s.a.flags.batched then Microtask(Initiator)
    else if s.b.flags.batched then Microtask(Responder)
    else if s.a.jobs != [] then Settle(Initiator, 0, false)
    else if s.b.jobs != [] then Settle(Responder, 0, false)
    else if s.toA != [] then Receive(Initiator)
    else Receive(Responder);
  }

  function StageCost(stage: Stage): nat {
    match stage
    case Quiet => 0
    case Creating => 10
    case SettingOffer => 9
    case SendingOffer => 8
    case OfferInFlight => 7
    case ApplyingOffer => 6
    case MakingAnswer => 5
    case SettingAnswer => 4
    case SendingAnswer => 3
    case AnswerInFlight => 2
    case ApplyingAnswer => 1
  }

  function FlagsCost(f: Flags, whenIdle: nat): nat {
    (if f.batched then if f.negotiating then whenIdle + 2 else whenIdle else 0) + (if f.queued then whenIdle + 1 else 0)
  }

  function Cost(s: System, stage: Stage): nat {
    StageCost(stage) + FlagsCost(s.a.flags, 11) + FlagsCost(s.b.flags, 16)
    + 15 * (Count(s.toA, Renegotiate) + Count(s.toA, Transceiver))
    + Count(s.toB, Renegotiate) + Count(s.toB, Transceiver)
  }

  lemma MicrotaskCosts(s: System, stage: Stage, side: Side)
    requires InStage(s, stage) && At(s, side).flags.batched
    ensures Cost(Ran(s, side), StageAfter(s, stage, Microtask(side))) < Cost(s, stage)
  {
    hide Count;
    AppendCounts(s.toA, Renegotiate);
  }

  lemma SettlingCosts(s: System, stage: Stage, side: Side, k: nat)
    requires InStage(s, stage) && k < |At(s, side).jobs|
    ensures Cost(Settled(s, side, k, false), StageAfter(s, stage, Settle(side, k, false))) < Cost(s, stage)
  {
    hide Count;
    AppendCounts(s.toA, Answer);
    AppendCounts(s.toB, Offer);
  }

  lemma ReceivingCosts(s: System, stage: Stage, side: Side)
    requires InStage(s, stage) && Inbox(s, side) != []
    ensures Cost(Received(s, side), StageAfter(s, stage, Receive(side))) < Cost(s, stage)
  {
    hide Count;
    TailCounts(Inbox(s, side));
  }

  lemma InternalStepsCost(s: System, stage: Stage, step: Step)
    requires Sound(s, stage) && Internal(s, step)
    ensures Sound(Next(s, step), StageAfter(s, stage, step))
    ensures Cost(Next(s, step), StageAfter(s, stage, step)) < Cost(s, stage)
  {
    hide InStage, NothingStuck, Cost, StageAfter, Ran, Settled, Received;
    NextKeeps(s, stage, step);
    match step
    case Microtask(side) => MicrotaskCosts(s, stage, side);
    case Settle(side, k, _) => SettlingCosts(s, stage, side, k);
    case Receive(side) => ReceivingCosts(s, stage, side);
  }

  ghost predicate AllInternal(s: System, steps: seq<Step>)
    decreases |steps|
  {
    steps == [] || (Internal(s, steps[0]) && AllInternal(Next(s, steps[0]), steps[1..]))
  }

  /** Left alone, the system comes to rest after a bounded number of steps, whatever their order. */
  lemma {:induction false} LeftAloneItSettles(s: System, stage: Stage, steps: seq<Step>)
    requires Sound(s, stage) && AllInternal(s, steps)
    ensures |steps| <= Cost(s, stage)
    decreases |steps|
  {
    hide Sound, Cost, StageAfter, Next;
    if steps != [] {
      InternalStepsCost(s, stage, steps[0]);
      LeftAloneItSettles(Next(s, steps[0]), StageAfter(s, stage, steps[0]), steps[1..]);
    }
  }

  /** Whatever has happened, every way of carrying on without new requests ends, within one bound. */
  lemma EveryRunSettles(steps: seq<Step>) returns (bound: nat)
    ensures forall further :: AllInternal(Run(steps), further) ==> |further| <= bound
  {
    var stage := EveryRunIsSound(steps);
    bound := Cost(Run(steps), stage);
    forall further | AllInternal(Run(steps), further)
      ensures |further| <= bound
    {
      LeftAloneItSettles(Run(steps), stage, further);
    }
  }

  /** The responder's first request sends nothing: an offer is on its way without it. */
  lemma FirstRequestIsDiscarded(s: System)
    requires s.b.flags.batched && s.b.flags.first
    ensures Ran(s, Responder) == s.(b := s.b.(flags := s.b.flags.(batched := false, first := false)))
  {
  }
}
