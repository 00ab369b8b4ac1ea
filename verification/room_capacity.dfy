/** The global room count with the handlers taken apart at every load, compare-and-swap and lock:
    what still holds between the count and the register when any number of them interleave. */
module RoomCapacity {

  /** Where a handler is. Holding: its place in the count is taken, its room not yet registered.
      Releasing: its room is off the register, its place not yet given back. */
  datatype Pc =
    | Idle
    | Loaded(cur: int)
    | Holding
    | Releasing

  /** lost counts the rooms registered over another room of the same id. */
  datatype Shared = Shared(rooms: set<string>, roomsGlobal: int, pcs: map<nat, Pc>, lost: nat)

  datatype Step =
    | Load
    | CompareAndSwap
    | GiveUp
    | Publish(published: string)
    | Delete(deleted: string)
    | Release
    | AddRestored

  function PcOf(s: Shared, t: nat): Pc {
    if t in s.pcs then s.pcs[t] else Idle
  }

  function Go(s: Shared, t: nat, pc: Pc): Shared {
    s.(pcs := s.pcs[t := pc])
  }

  /** Thread t takes a step; a step it is not ready for does nothing. */
  function Act(max: int, s: Shared, t: nat, step: Step): Shared {
    match (PcOf(s, t), step)
    case (Idle, Load) => if s.roomsGlobal >= max then s else Go(s, t, Loaded(s.roomsGlobal))
    case (Loaded(cur), CompareAndSwap) =>
      if s.roomsGlobal == cur then Go(s, t, Holding).(roomsGlobal := cur + 1) else Go(s, t, Idle)
    case (Holding, GiveUp) => Go(s, t, Idle).(roomsGlobal := s.roomsGlobal - 1)
    case (Holding, Publish(id)) =>
      Go(s, t, Idle).(rooms := s.rooms + {id}, lost := if id in s.rooms then s.lost + 1 else s.lost)
    case (Idle, Delete(id)) => if id in s.rooms then Go(s, t, Releasing).(rooms := s.rooms - {id}) else s
    case (Releasing, Release) => Go(s, t, Idle).(roomsGlobal := s.roomsGlobal - 1)
    case (Idle, AddRestored) => Go(s, t, Holding).(roomsGlobal := s.roomsGlobal + 1)
    case (_, _) => s
  }

  function RunOf(max: int, steps: seq<(nat, Step)>): Shared {
    if steps == [] then Shared({}, 0, map[], 0)
    else
      var (t, step) := steps[|steps| - 1];
      Act(max, RunOf(max, steps[..|steps| - 1]), t, step)
  }

  predicate Owes(pc: Pc) {
    pc.Holding? || pc.Releasing?
  }

  function Owing(pcs: map<nat, Pc>): set<nat> {
    set t | t in pcs && Owes(pcs[t])
  }

  lemma OwingAfter(pcs: map<nat, Pc>, t: nat, pc: Pc)
    ensures Owing(pcs[t := pc]) == if Owes(pc) then Owing(pcs) + {t} else Owing(pcs) - {t}
  {
  }

  ghost predicate Balanced(s: Shared) {
    s.roomsGlobal == |s.rooms| + |Owing(s.pcs)| + s.lost
  }

  ghost predicate BelowMax(max: int, s: Shared) {
    && s.roomsGlobal <= max
    && forall t :: t in s.pcs && s.pcs[t].Loaded? ==> s.pcs[t].cur < max
  }

  /** A thread that moves changes what is owed by its own part. */
  lemma GoOwes(s: Shared, t: nat, pc: Pc)
    ensures |Owing(Go(s, t, pc).pcs)| - |Owing(s.pcs)| ==
              (if Owes(pc) then 1 else 0) - (if Owes(PcOf(s, t)) then 1 else 0)
  {
    var owing := Owing(s.pcs);
    OwingAfter(s.pcs, t, pc);
    assert t in owing <==> Owes(PcOf(s, t));
    assert t in owing ==> owing + {t} == owing;
    assert t !in owing ==> owing - {t} == owing;
  }

  lemma ActKeepsBalance(max: int, s: Shared, t: nat, step: Step)
    requires Balanced(s)
    ensures Balanced(Act(max, s, t, step))
  {
    hide Owing, Go;
    GoOwes(s, t, Idle);
    GoOwes(s, t, Loaded(s.roomsGlobal));
    GoOwes(s, t, Holding);
    GoOwes(s, t, Releasing);
    GoOnly(s, t);
    match (PcOf(s, t), step) {
      case (Holding, Publish(id)) =>
        assert id in s.rooms ==> s.rooms + {id} == s.rooms;
      case (Idle, Delete(id)) =>
        assert id in s.rooms ==> |s.rooms - {id}| == |s.rooms| - 1;
      case (_, _) =>
    }
  }

  lemma GoOnly(s: Shared, t: nat)
    ensures forall pc :: Go(s, t, pc) == s.(pcs := Go(s, t, pc).pcs)
  {
  }

  /** In every interleaving the count is the registered rooms, the places taken or not yet given back,
      and the rooms that were registered over another. */
  lemma {:induction false} CountIsConserved(max: int, steps: seq<(nat, Step)>)
    ensures Balanced(RunOf(max, steps))
    ensures |RunOf(max, steps).rooms| <= RunOf(max, steps).roomsGlobal
    decreases |steps|
  {
    hide Owing;
    if steps == [] {
      NobodyOwes();
    } else {
      CountIsConserved(max, steps[..|steps| - 1]);
      var (t, step) := steps[|steps| - 1];
      ActKeepsBalance(max, RunOf(max, steps[..|steps| - 1]), t, step);
    }
  }

  lemma NobodyOwes()
    ensures Owing(map[]) == {}
  {
  }

  /** Unless something is restored, the count never exceeds the maximum, at any point. */
  lemma {:induction false} NeverAboveMax(max: int, steps: seq<(nat, Step)>)
    requires max >= 0 && forall i :: 0 <= i < |steps| ==> !steps[i].1.AddRestored?
    ensures BelowMax(max, RunOf(max, steps))
    ensures |RunOf(max, steps).rooms| <= max
    decreases |steps|
  {
    hide Owing, Act, BelowMax;
    CountIsConserved(max, steps);
    if steps == [] {
      assert BelowMax(max, Shared({}, 0, map[], 0)) by { StartsBelow(max); }
    } else {
      var n := |steps| - 1;
      NeverAboveMax(max, steps[..n]);
      ActKeepsBelow(max, RunOf(max, steps[..n]), steps[n].0, steps[n].1);
    }
    NotAbove(max, RunOf(max, steps));
  }

  lemma NotAbove(max: int, s: Shared)
    requires BelowMax(max, s)
    ensures s.roomsGlobal <= max
  {
  }

  lemma StartsBelow(max: int)
    requires max >= 0
    ensures BelowMax(max, Shared({}, 0, map[], 0))
  {
  }

  lemma ActKeepsBelow(max: int, s: Shared, t: nat, step: Step)
    requires BelowMax(max, s) && !step.AddRestored?
    ensures BelowMax(max, Act(max, s, t, step))
  {
  }

  /** Step i registers a room over another of the same id. */
  predicate Overwrites(max: int, steps: seq<(nat, Step)>, i: nat)
    requires i < |steps|
  {
    var s, (t, step) := RunOf(max, steps[..i]), steps[i];
    PcOf(s, t).Holding? && step.Publish? && step.published in s.rooms
  }

  lemma {:induction false} LostByOverwriting(max: int, steps: seq<(nat, Step)>)
    ensures RunOf(max, steps).lost == 0 <==> forall i :: 0 <= i < |steps| ==> !Overwrites(max, steps, i)
    decreases |steps|
  {
    if steps != [] {
      var n := |steps| - 1;
      LostByOverwriting(max, steps[..n]);
      forall i | 0 <= i < n
        ensures Overwrites(max, steps[..n], i) == Overwrites(max, steps, i)
      {
        assert steps[..n][..i] == steps[..i];
      }
      OneMoreLost(max, RunOf(max, steps[..n]), steps[n].0, steps[n].1);
      assert RunOf(max, steps).lost == RunOf(max, steps[..n]).lost + if Overwrites(max, steps, n) then 1 else 0;
    }
  }

  lemma OneMoreLost(max: int, s: Shared, t: nat, step: Step)
    ensures Act(max, s, t, step).lost ==
              s.lost + if PcOf(s, t).Holding? && step.Publish? && step.published in s.rooms then 1 else 0
  {
  }

  /** At rest the count is exact if and only if nobody registered a room over another. */
  lemma ExactAtRest(max: int, steps: seq<(nat, Step)>)
    requires Owing(RunOf(max, steps).pcs) == {}
    ensures var s := RunOf(max, steps);
            s.roomsGlobal == |s.rooms| <==> forall i :: 0 <= i < |steps| ==> !Overwrites(max, steps, i)
  {
    CountIsConserved(max, steps);
    LostByOverwriting(max, steps);
  }

  /** Two recreations of one room at once do leave the count one too high. */
  lemma TwoRecreationsAtOnce(id: string)
    ensures var steps := [(1, Load), (1, CompareAndSwap), (2, Load), (2, CompareAndSwap),
                          (1, Publish(id)), (2, Publish(id))];
            var s := RunOf(10, steps);
            s.rooms == {id} && s.roomsGlobal == 2 && Owing(s.pcs) == {}
  {
    var s0 := Shared({}, 0, map[], 0);
    var s2 := Act(10, Act(10, s0, 1, Load), 1, CompareAndSwap);
    var s4 := Act(10, Act(10, s2, 2, Load), 2, CompareAndSwap);
    var s6 := Act(10, Act(10, s4, 1, Publish(id)), 2, Publish(id));
    var steps := [(1, Load), (1, CompareAndSwap), (2, Load), (2, CompareAndSwap), (1, Publish(id)), (2, Publish(id))];
    RunOfPrefix(10, steps, 1);
    RunOfPrefix(10, steps, 2);
    RunOfPrefix(10, steps, 3);
    RunOfPrefix(10, steps, 4);
    RunOfPrefix(10, steps, 5);
    RunOfPrefix(10, steps, 6);
    assert steps[..6] == steps;
    assert RunOf(10, steps) == s6;
  }

  lemma RunOfPrefix(max: int, steps: seq<(nat, Step)>, n: nat)
    requires 0 < n <= |steps|
    ensures RunOf(max, steps[..n]) == Act(max, RunOf(max, steps[..n - 1]), steps[n - 1].0, steps[n - 1].1)
  {
    assert steps[..n][..n - 1] == steps[..n - 1];
  }
}
