/**
  Runs from a new supervisor that show what its documentation does not lead one to expect: group
  restarts that change the start order, that bring back a child stopped by an administrator, or that
  forget a sibling; and a supervisor that goes on restarting a child after a stop that failed
  half-way. Each run is given by all its states and actions.
*/
module SupervisorExamples {
  import opened ActorControl
  import opened Collections
  import opened Supervisors
  import opened SupervisorGroups
  import opened SupervisorOrders

  // Permanent children, all with the same arguments.
  function Permanents(strategy: Strategy, n: nat, args: Args): Config {
    Config(strategy, 5, 10, seq(n, _ => Spec(Permanent, args)))
  }

  function New(): Sup {
    Sup([], [], None, 1, false, [], 0, {}, 1)
  }

  // A child that nobody has asked to stop.
  function Running(ref: Ref, spec: nat, order: nat, args: Args): Row {
    Row(ref, Child(spec, order, args, false, false))
  }

  // One calm step of a run, kept folded.
  ghost predicate Steps(cfg: Config, s: Sup, a: Action, s': Sup) {
    forall n: nat {:trigger Unfold(n)} :: Unfold(n) ==>
      SpecsKnown(cfg, s) && Allowed(cfg, s, a) && Calm(s, a) && Step(cfg, s, a) == Done(s')
  }

  ghost predicate AllStep(cfg: Config, states: seq<Sup>, actions: seq<Action>) {
    |states| == |actions| + 1 && forall i :: 0 <= i < |actions| ==> Steps(cfg, states[i], actions[i], states[i + 1])
  }

  lemma StepsMakeRun(cfg: Config, states: seq<Sup>, actions: seq<Action>)
    requires AllStep(cfg, states, actions)
    ensures IsCalmRun(cfg, states, actions)
  {
    assert Unfold(0);
    forall i | 0 <= i < |actions|
      ensures SpecsKnown(cfg, states[i]) && Allowed(cfg, states[i], actions[i]) && Calm(states[i], actions[i])
      ensures Step(cfg, states[i], actions[i]) == Done(states[i + 1])
    {
      assert Steps(cfg, states[i], actions[i], states[i + 1]);
    }
  }

  lemma ChildDies(cfg: Config, s: Sup, ref: Ref)
    requires SpecsKnown(cfg, s)
    ensures Steps(cfg, s, Dies(ref), s.(live := s.live - {ref}))
  {
  }

  lemma StartsOne(cfg: Config, s: Sup, spec: nat, args: Args)
    requires SpecsKnown(cfg, s) && spec < |cfg.specs| && cfg.strategy != SimpleOneForOne
    requires s.group.None? && !s.stopping
    requires forall k :: 0 <= k < |s.children| ==> s.children[k].ref < s.nextRef && s.children[k].child.spec != spec
    ensures Steps(cfg, s, Start(spec, args),
                  s.(children := s.children + [Running(s.nextRef, spec, s.nextOrder, args)],
                     nextOrder := s.nextOrder + 1, live := s.live + {s.nextRef}, nextRef := s.nextRef + 1))
  {
    PutLast(s.children, Running(s.nextRef, spec, s.nextOrder, args));
  }

  lemma RespawnsTwo(cfg: Config, s: Sup, first: PlanItem, second: PlanItem)
    requires Comes(cfg, first) && Comes(cfg, second)
    ensures RespawnAll(cfg, s, [first, second]) == Respawn(cfg, Respawn(cfg, s, first.child), second.child)
  {
    assert [first, second][1..] == [second] && [second][1..] == [];
    var once := Respawn(cfg, s, first.child);
    assert RespawnAll(cfg, once, [second]) == RespawnAll(cfg, Respawn(cfg, once, second.child), []);
  }

  // The first failure ever of a child that is part of a group: its restart is allowed.
  ghost predicate FailsFirst(cfg: Config, s: Sup, i: nat) {
    && Inv(cfg, s) && s.group.None? && i < |s.children| && s.times == [] && s.decisions == []
    && (cfg.strategy == OneForAll || cfg.strategy == RestForOne) && cfg.maxRestarts > 0
    && !s.children[i].child.suppress && PolicyOf(cfg, s.children[i].child.spec) == Permanent
  }

  lemma FailureBeginsGroup(cfg: Config, s: Sup, i: nat, rest: seq<Row>, s': Sup)
    requires FailsFirst(cfg, s, i) && rest == s.children[..i] + s.children[i + 1..]
    requires var decided := s.(children := rest, times := [0], decisions := [Decision(0, true)]);
             SpecsKnown(cfg, decided) && BeginGroup(cfg, decided, s.children[i].ref, s.children[i].child, Error) == Done(s')
    ensures Steps(cfg, s, Down(s.children[i].ref, Error, 0), s')
  {
    TerminateRestarts(cfg, s, i, Error, 0);
    RestartAllowed(cfg, s.(children := rest));
  }

  lemma RestartAllowed(cfg: Config, s: Sup)
    requires s.times == [] && s.decisions == [] && cfg.maxRestarts > 0
    ensures Register(cfg, s, 0) == Done((s.(times := [0], decisions := [Decision(0, true)]), true))
  {
    assert Recent([], 0, cfg.within) == [] && [] + [0] == [0] && [] + [Decision(0, true)] == [Decision(0, true)];
  }

  // The child started for a plan item.
  function Again(item: PlanItem, ref: Ref, order: nat): Row {
    Running(ref, item.child.spec, order, item.child.args)
  }

  lemma PairSpawns(cfg: Config, s: Sup, first: PlanItem, second: PlanItem)
    requires s.children == [] && first.child.spec != second.child.spec
    ensures var again, both := Again(first, s.nextRef, s.nextOrder), Again(second, s.nextRef + 1, s.nextOrder + 1);
            Respawn(cfg, Respawn(cfg, s, first.child), second.child)
            == s.(children := [again, both], nextOrder := s.nextOrder + 2, nextRef := s.nextRef + 2,
                  live := s.live + {s.nextRef} + {s.nextRef + 1})
  {
    var again, both := Again(first, s.nextRef, s.nextOrder), Again(second, s.nextRef + 1, s.nextOrder + 1);
    assert [] + [again] == [again] && [again] + [both] == [again, both];
    PutLast([], again);
    PutLast([again], both);
  }

  // The last child that a group of two waits for has stopped, nobody else being left.
  ghost predicate PairIsDown(cfg: Config, s: Sup, ref: Ref) {
    && SpecsKnown(cfg, s) && |s.children| == 1 && s.children[0].ref == ref != 0 && s.live == {}
    && s.group.Some? && s.group.value.pending == [ref] && |s.group.value.plan| == 2
    && Comes(cfg, s.group.value.plan[0]) && Comes(cfg, s.group.value.plan[1])
    && s.group.value.plan[0].child.spec != s.group.value.plan[1].child.spec
    && (s.decisions == [] || s.decisions[|s.decisions| - 1].time <= 0)
  }

  lemma PairEnds(cfg: Config, s: Sup, ref: Ref)
    requires PairIsDown(cfg, s, ref)
    ensures var Group(plan, _) := s.group.value;
            GroupStop(cfg, s, ref) == RespawnAll(cfg, s.(children := [], group := None), [plan[0], plan[1]])
  {
    assert s.group.value.plan == [s.group.value.plan[0], s.group.value.plan[1]];
    assert Find(s.children, ref) == Some(0) && s.children[..0] + s.children[1..] == [];
    assert [ref][1..] == [];
  }

  lemma PairAgain(cfg: Config, s: Sup, ref: Ref)
    requires PairIsDown(cfg, s, ref)
    ensures GroupStop(cfg, s, ref) == BothAgain(s)
  {
    var plan, ended := s.group.value.plan, s.(children := [], group := None);
    PairEnds(cfg, s, ref);
    RespawnsTwo(cfg, ended, plan[0], plan[1]);
    PairSpawns(cfg, ended, plan[0], plan[1]);
    assert {} + {s.nextRef} + {s.nextRef + 1} == {s.nextRef, s.nextRef + 1};
  }

  // Both children of the plan started again.
  function BothAgain(s: Sup): Sup
    requires s.group.Some? && |s.group.value.plan| == 2
  {
    var plan := s.group.value.plan;
    s.(children := [Again(plan[0], s.nextRef, s.nextOrder), Again(plan[1], s.nextRef + 1, s.nextOrder + 1)],
       group := None, nextOrder := s.nextOrder + 2, nextRef := s.nextRef + 2, live := {s.nextRef, s.nextRef + 1})
  }

  lemma GroupSteps(cfg: Config, s: Sup, ref: Ref, s': Sup)
    requires SpecsKnown(cfg, s) && s.group.Some? && ref != 0 && GroupStop(cfg, s, ref) == s'
    requires s.decisions == [] || s.decisions[|s.decisions| - 1].time <= 0
    ensures Steps(cfg, s, Down(ref, Stopped, 0), s')
  {
  }

  lemma PairComesBack(cfg: Config, s: Sup, ref: Ref)
    requires PairIsDown(cfg, s, ref)
    ensures Steps(cfg, s, Down(ref, Stopped, 0), BothAgain(s))
  {
    PairAgain(cfg, s, ref);
    GroupSteps(cfg, s, ref, BothAgain(s));
  }

  // With two children started, in order.
  function TwoRunning(args: Args): Sup {
    Sup([Running(1, 0, 1, args), Running(2, 1, 2, args)], [], None, 3, false, [], 0, {1, 2}, 3)
  }

  function OneRunning(args: Args): Sup {
    Sup([Running(1, 0, 1, args)], [], None, 2, false, [], 0, {1}, 2)
  }

  lemma TwoStart(strategy: Strategy, n: nat, args: Args)
    requires n >= 2 && strategy != SimpleOneForOne
    ensures var cfg := Permanents(strategy, n, args);
            && Steps(cfg, New(), Start(0, args), OneRunning(args))
            && Steps(cfg, OneRunning(args), Start(1, args), TwoRunning(args))
  {
    var cfg := Permanents(strategy, n, args);
    StartsOne(cfg, New(), 0, args);
    assert [] + [Running(1, 0, 1, args)] == [Running(1, 0, 1, args)];
    StartsOne(cfg, OneRunning(args), 1, args);
    assert [Running(1, 0, 1, args)] + [Running(2, 1, 2, args)] == TwoRunning(args).children;
    assert {} + {1} == {1} && {1} + {2} == {1, 2};
  }

  // ----- the failed child comes first

  // The second of two children has failed, and the first is to stop.
  function SecondFailed(args: Args): Sup {
    Sup([Row(1, Child(0, 1, args, true, false))], [0],
        Some(Group([PlanItem(2, Child(1, 2, args, false, false), Error), PlanItem(1, Child(0, 1, args, false, false), Stopped)], [1])),
        3, false, [Decision(0, true)], 0, {1}, 3)
  }

  function Swapped(args: Args): Sup {
    Sup([Running(3, 1, 3, args), Running(4, 0, 4, args)], [0], None, 5, false, [Decision(0, true)], 0, {3, 4}, 5)
  }

  // The second child is off the map and its restart has been allowed.
  function SecondDecided(args: Args): Sup {
    TwoRunning(args).(children := [Running(1, 0, 1, args)], times := [0], decisions := [Decision(0, true)], live := {1})
  }

  lemma SecondBegins(args: Args)
    ensures SpecsKnown(Permanents(OneForAll, 2, args), SecondDecided(args))
    ensures BeginGroup(Permanents(OneForAll, 2, args), SecondDecided(args), 2, Child(1, 2, args, false, false), Error)
         == Done(SecondFailed(args))
  {
    var cfg, failed, rest := Permanents(OneForAll, 2, args), Child(1, 2, args, false, false), SecondDecided(args).children;
    PlannedIsTail(cfg, failed, rest, 0);
    assert rest[0..] == rest && rest[..0] == [];
    assert Items(rest) == [PlanItem(1, Child(0, 1, args, false, false), Stopped)];
    assert Refs(rest) == [1];
    assert [] + HaltedRows(rest) == SecondFailed(args).children;
    var plan := SecondFailed(args).group.value.plan;
    assert [plan[0]] + [plan[1]] == plan;
  }

  lemma SecondFails(args: Args)
    ensures var cfg := Permanents(OneForAll, 2, args);
            Steps(cfg, TwoRunning(args).(live := {1}), Down(2, Error, 0), SecondFailed(args))
  {
    SecondBegins(args);
    FailureBeginsGroup(Permanents(OneForAll, 2, args), TwoRunning(args).(live := {1}), 1, SecondDecided(args).children, SecondFailed(args));
  }

  lemma SecondRestarts(args: Args)
    ensures var cfg := Permanents(OneForAll, 2, args);
            Steps(cfg, SecondFailed(args).(live := {}), Down(1, Stopped, 0), Swapped(args))
  {
    PairComesBack(Permanents(OneForAll, 2, args), SecondFailed(args).(live := {}), 1);
  }

  // Two permanent children under `one_for_all`; the second fails, and both are restarted ...
  lemma OneForAllRestarts(args: Args)
    ensures Initial(New())
    ensures IsCalmRun(Permanents(OneForAll, 2, args),
                      [New(), OneRunning(args), TwoRunning(args), TwoRunning(args).(live := {1}),
                       SecondFailed(args), SecondFailed(args).(live := {}), Swapped(args)],
                      [Start(0, args), Start(1, args), Dies(2), Down(2, Error, 0), Dies(1), Down(1, Stopped, 0)])
  {
    var cfg := Permanents(OneForAll, 2, args);
    var states := [New(), OneRunning(args), TwoRunning(args), TwoRunning(args).(live := {1}),
                   SecondFailed(args), SecondFailed(args).(live := {}), Swapped(args)];
    var actions := [Start(0, args), Start(1, args), Dies(2), Down(2, Error, 0), Dies(1), Down(1, Stopped, 0)];
    TwoStart(OneForAll, 2, args);
    ChildDies(cfg, states[2], 2);
    assert {1, 2} - {2} == {1} && {1} - {1} == {};
    SecondFails(args);
    ChildDies(cfg, states[4], 1);
    SecondRestarts(args);
    StepsMakeRun(cfg, states, actions);
  }

  // ... the other way round.
  lemma OneForAllSwaps(args: Args)
    ensures Specs(TwoRunning(args).children) == [0, 1] && Specs(Swapped(args).children) == [1, 0]
    ensures !Subsequence(Specs(Swapped(args).children), Specs(TwoRunning(args).children))
  {
    assert [0, 1] == [0] + [1] + [] && [1, 0] == [1] + [0] + [];
    EmptySubsequence<nat>([]);
    MovedToFront([0], 1, [], [0], []);
  }

  // ----- a suppressed sibling comes back

  // The second child has been stopped by an administrator.
  function SecondStopped(args: Args): Sup {
    TwoRunning(args).(children := [Running(1, 0, 1, args), Row(2, Child(1, 2, args, true, true))])
  }

  // Then the first has failed.
  function FirstFailed(args: Args): Sup {
    Sup([Row(2, Child(1, 2, args, true, false))], [0],
        Some(Group([PlanItem(1, Child(0, 1, args, false, false), Error), PlanItem(2, Child(1, 2, args, true, true), Stopped)], [2])),
        3, false, [Decision(0, true)], 0, {2}, 3)
  }

  function BothBack(args: Args): Sup {
    Sup([Running(3, 0, 3, args), Running(4, 1, 4, args)], [0], None, 5, false, [Decision(0, true)], 0, {3, 4}, 5)
  }

  lemma SecondIsStopped(args: Args)
    ensures Steps(Permanents(OneForAll, 2, args), TwoRunning(args), StopOne(1), SecondStopped(args))
  {
    assert HaltSpec(TwoRunning(args).children, 1) == SecondStopped(args).children;
  }

  // The first child is off the map and its restart has been allowed.
  function FirstDecided(args: Args): Sup {
    SecondStopped(args).(children := [Row(2, Child(1, 2, args, true, true))], times := [0],
                         decisions := [Decision(0, true)], live := {2})
  }

  lemma FirstBegins(args: Args)
    ensures SpecsKnown(Permanents(OneForAll, 2, args), FirstDecided(args))
    ensures BeginGroup(Permanents(OneForAll, 2, args), FirstDecided(args), 1, Child(0, 1, args, false, false), Error)
         == Done(FirstFailed(args))
  {
    var cfg, failed, rest := Permanents(OneForAll, 2, args), Child(0, 1, args, false, false), FirstDecided(args).children;
    PlannedIsTail(cfg, failed, rest, 0);
    assert rest[0..] == rest && rest[..0] == [];
    assert Items(rest) == [PlanItem(2, Child(1, 2, args, true, true), Stopped)];
    assert Refs(rest) == [2];
    assert [] + HaltedRows(rest) == FirstFailed(args).children;
    var plan := FirstFailed(args).group.value.plan;
    assert [plan[0]] + [plan[1]] == plan;
  }

  lemma FirstFails(args: Args)
    ensures Steps(Permanents(OneForAll, 2, args), SecondStopped(args).(live := {2}), Down(1, Error, 0), FirstFailed(args))
  {
    FirstBegins(args);
    FailureBeginsGroup(Permanents(OneForAll, 2, args), SecondStopped(args).(live := {2}), 0, FirstDecided(args).children,
                       FirstFailed(args));
  }

  lemma BothComeBack(args: Args)
    ensures Steps(Permanents(OneForAll, 2, args), FirstFailed(args).(live := {}), Down(2, Stopped, 0), BothBack(args))
  {
    PairComesBack(Permanents(OneForAll, 2, args), FirstFailed(args).(live := {}), 2);
  }

  // The second of two children is stopped for good, the first fails, and the group that restarts it
  // also restarts the other.
  lemma StoppedChildComesBack(args: Args)
    ensures IsCalmRun(Permanents(OneForAll, 2, args),
                      [New(), OneRunning(args), TwoRunning(args), SecondStopped(args), SecondStopped(args).(live := {2}),
                       FirstFailed(args), FirstFailed(args).(live := {}), BothBack(args)],
                      [Start(0, args), Start(1, args), StopOne(1), Dies(1), Down(1, Error, 0), Dies(2), Down(2, Stopped, 0)])
    ensures SecondStopped(args).children[1].child.spec == 1 && SecondStopped(args).children[1].child.suppress
    ensures BothBack(args).children[1].child.spec == 1 && !BothBack(args).children[1].child.stopping
  {
    var cfg := Permanents(OneForAll, 2, args);
    var states := [New(), OneRunning(args), TwoRunning(args), SecondStopped(args), SecondStopped(args).(live := {2}),
                   FirstFailed(args), FirstFailed(args).(live := {}), BothBack(args)];
    var actions := [Start(0, args), Start(1, args), StopOne(1), Dies(1), Down(1, Error, 0), Dies(2), Down(2, Stopped, 0)];
    TwoStart(OneForAll, 2, args);
    SecondIsStopped(args);
    ChildDies(cfg, states[3], 1);
    assert {1, 2} - {1} == {2} && {2} - {2} == {};
    FirstFails(args);
    ChildDies(cfg, states[5], 2);
    BothComeBack(args);
    StepsMakeRun(cfg, states, actions);
  }

  // ----- an earlier sibling is forgotten

  function ThreeRunning(args: Args): Sup {
    Sup([Running(1, 0, 1, args), Running(2, 1, 2, args), Running(3, 2, 3, args)], [], None, 4, false, [], 0, {1, 2, 3}, 4)
  }

  // The second of three has failed, and the third is to stop.
  function MiddleFailed(args: Args): Sup {
    Sup([Running(1, 0, 1, args), Row(3, Child(2, 3, args, true, false))], [0],
        Some(Group([PlanItem(2, Child(1, 2, args, false, false), Error), PlanItem(3, Child(2, 3, args, false, false), Stopped)], [3])),
        4, false, [Decision(0, true)], 0, {1, 3}, 4)
  }

  // Meanwhile the first has died.
  function FirstDied(args: Args): Sup {
    MiddleFailed(args).(children := [Row(3, Child(2, 3, args, true, false))], live := {3})
  }

  function TwoOfThree(args: Args): Sup {
    Sup([Running(4, 1, 4, args), Running(5, 2, 5, args)], [0], None, 6, false, [Decision(0, true)], 0, {4, 5}, 6)
  }

  // The middle child is off the map and its restart has been allowed.
  function MiddleDecided(args: Args): Sup {
    ThreeRunning(args).(children := [Running(1, 0, 1, args), Running(3, 2, 3, args)], times := [0],
                        decisions := [Decision(0, true)], live := {1, 3})
  }

  lemma MiddleBegins(args: Args)
    ensures SpecsKnown(Permanents(RestForOne, 3, args), MiddleDecided(args))
    ensures BeginGroup(Permanents(RestForOne, 3, args), MiddleDecided(args), 2, Child(1, 2, args, false, false), Error)
         == Done(MiddleFailed(args))
  {
    var cfg, failed, rest := Permanents(RestForOne, 3, args), Child(1, 2, args, false, false), MiddleDecided(args).children;
    PlannedIsTail(cfg, failed, rest, 1);
    assert rest[1..] == [Running(3, 2, 3, args)] && rest[..1] == [Running(1, 0, 1, args)];
    assert Items(rest[1..]) == [PlanItem(3, Child(2, 3, args, false, false), Stopped)];
    assert Refs(rest[1..]) == [3];
    assert rest[..1] + HaltedRows(rest[1..]) == MiddleFailed(args).children;
    var plan := MiddleFailed(args).group.value.plan;
    assert [plan[0]] + [plan[1]] == plan;
  }

  lemma MiddleFails(args: Args)
    ensures Steps(Permanents(RestForOne, 3, args), ThreeRunning(args).(live := {1, 3}), Down(2, Error, 0), MiddleFailed(args))
  {
    MiddleBegins(args);
    FailureBeginsGroup(Permanents(RestForOne, 3, args), ThreeRunning(args).(live := {1, 3}), 1, MiddleDecided(args).children,
                       MiddleFailed(args));
  }

  lemma FirstIsForgotten(args: Args)
    ensures Steps(Permanents(RestForOne, 3, args), MiddleFailed(args).(live := {3}), Down(1, Error, 0), FirstDied(args))
  {
    var s := MiddleFailed(args).(live := {3});
    FindAt(s.children, 0);
    assert s.children[..0] + s.children[1..] == FirstDied(args).children;
    assert s.group.value.pending[1..] == [] && [3] + [] == [3];
  }

  lemma TwoComeBack(args: Args)
    ensures Steps(Permanents(RestForOne, 3, args), FirstDied(args).(live := {}), Down(3, Stopped, 0), TwoOfThree(args))
  {
    PairComesBack(Permanents(RestForOne, 3, args), FirstDied(args).(live := {}), 3);
  }

  lemma ThirdStarts(args: Args)
    ensures Steps(Permanents(RestForOne, 3, args), TwoRunning(args), Start(2, args), ThreeRunning(args))
  {
    StartsOne(Permanents(RestForOne, 3, args), TwoRunning(args), 2, args);
    assert TwoRunning(args).children + [Running(3, 2, 3, args)] == ThreeRunning(args).children;
    assert {1, 2} + {3} == {1, 2, 3};
  }

  lemma ThreeDie(args: Args)
    ensures var cfg := Permanents(RestForOne, 3, args);
            && Steps(cfg, ThreeRunning(args), Dies(2), ThreeRunning(args).(live := {1, 3}))
            && Steps(cfg, MiddleFailed(args), Dies(1), MiddleFailed(args).(live := {3}))
            && Steps(cfg, FirstDied(args), Dies(3), FirstDied(args).(live := {}))
  {
    var cfg := Permanents(RestForOne, 3, args);
    assert {1, 2, 3} - {2} == {1, 3} && {1, 3} - {1} == {3} && {3} - {3} == {};
    ChildDies(cfg, ThreeRunning(args), 2);
    ChildDies(cfg, MiddleFailed(args), 1);
    ChildDies(cfg, FirstDied(args), 3);
  }

  lemma NineSteps(cfg: Config, s0: Sup, a0: Action, s1: Sup, a1: Action, s2: Sup, a2: Action, s3: Sup, a3: Action, s4: Sup,
                  a4: Action, s5: Sup, a5: Action, s6: Sup, a6: Action, s7: Sup, a7: Action, s8: Sup, a8: Action, s9: Sup)
    requires Steps(cfg, s0, a0, s1) && Steps(cfg, s1, a1, s2) && Steps(cfg, s2, a2, s3) && Steps(cfg, s3, a3, s4)
    requires Steps(cfg, s4, a4, s5) && Steps(cfg, s5, a5, s6) && Steps(cfg, s6, a6, s7) && Steps(cfg, s7, a7, s8)
    requires Steps(cfg, s8, a8, s9)
    ensures AllStep(cfg, [s0, s1, s2, s3, s4, s5, s6, s7, s8, s9], [a0, a1, a2, a3, a4, a5, a6, a7, a8])
  {
    var first, second, third := [s0, s1, s2, s3], [s3, s4, s5, s6], [s6, s7, s8, s9];
    ThreeSteps(cfg, s0, a0, s1, a1, s2, a2, s3);
    ThreeSteps(cfg, s3, a3, s4, a4, s5, a5, s6);
    ThreeSteps(cfg, s6, a6, s7, a7, s8, a8, s9);
    StepsJoin(cfg, first, [a0, a1, a2], second, [a3, a4, a5]);
    StepsJoin(cfg, first + second[1..], [a0, a1, a2] + [a3, a4, a5], third, [a6, a7, a8]);
    assert first + second[1..] + third[1..] == [s0, s1, s2, s3, s4, s5, s6, s7, s8, s9];
    assert [a0, a1, a2] + [a3, a4, a5] + [a6, a7, a8] == [a0, a1, a2, a3, a4, a5, a6, a7, a8];
  }

  lemma ThreeSteps(cfg: Config, s0: Sup, a0: Action, s1: Sup, a1: Action, s2: Sup, a2: Action, s3: Sup)
    requires Steps(cfg, s0, a0, s1) && Steps(cfg, s1, a1, s2) && Steps(cfg, s2, a2, s3)
    ensures AllStep(cfg, [s0, s1, s2, s3], [a0, a1, a2])
  {
  }

  // Steps from where others end.
  lemma StepsJoin(cfg: Config, states: seq<Sup>, actions: seq<Action>, more: seq<Sup>, others: seq<Action>)
    requires AllStep(cfg, states, actions) && AllStep(cfg, more, others) && states[|actions|] == more[0]
    ensures AllStep(cfg, states + more[1..], actions + others)
  {
    var states', actions', n := states + more[1..], actions + others, |actions|;
    forall i | 0 <= i < |actions'|
      ensures Steps(cfg, states'[i], actions'[i], states'[i + 1])
    {
      if i < n {
        assert states'[i] == states[i] && states'[i + 1] == states[i + 1] && actions'[i] == actions[i];
      } else {
        assert states'[i] == more[i - n] && states'[i + 1] == more[i - n + 1] && actions'[i] == others[i - n];
      }
    }
  }

  lemma FirstIsMissing(args: Args)
    ensures Specs(ThreeRunning(args).children) == [0, 1, 2] && Specs(TwoOfThree(args).children) == [1, 2]
  {
  }

  // Three permanent children under `rest_for_one`; the second fails, and the first dies, with an
  // error, before the third has stopped: it is never restarted.
  lemma EarlierSiblingIsForgotten(args: Args)
    ensures IsCalmRun(Permanents(RestForOne, 3, args),
                      [New(), OneRunning(args), TwoRunning(args), ThreeRunning(args), ThreeRunning(args).(live := {1, 3}),
                       MiddleFailed(args), MiddleFailed(args).(live := {3}), FirstDied(args), FirstDied(args).(live := {}),
                       TwoOfThree(args)],
                      [Start(0, args), Start(1, args), Start(2, args), Dies(2), Down(2, Error, 0), Dies(1), Down(1, Error, 0),
                       Dies(3), Down(3, Stopped, 0)])
    ensures Specs(ThreeRunning(args).children) == [0, 1, 2] && Specs(TwoOfThree(args).children) == [1, 2]
  {
    var cfg := Permanents(RestForOne, 3, args);
    var states := [New(), OneRunning(args), TwoRunning(args), ThreeRunning(args), ThreeRunning(args).(live := {1, 3}),
                   MiddleFailed(args), MiddleFailed(args).(live := {3}), FirstDied(args), FirstDied(args).(live := {}),
                   TwoOfThree(args)];
    FirstIsMissing(args);
    TwoStart(RestForOne, 3, args);
    ThirdStarts(args);
    ThreeDie(args);
    MiddleFails(args);
    FirstIsForgotten(args);
    TwoComeBack(args);
    NineSteps(cfg, states[0], Start(0, args), states[1], Start(1, args), states[2], Start(2, args), states[3], Dies(2), states[4],
              Down(2, Error, 0), states[5], Dies(1), states[6], Down(1, Error, 0), states[7], Dies(3), states[8],
              Down(3, Stopped, 0), states[9]);
    StepsMakeRun(cfg, states, [Start(0, args), Start(1, args), Start(2, args), Dies(2), Down(2, Error, 0), Dies(1),
                               Down(1, Error, 0), Dies(3), Down(3, Stopped, 0)]);
  }

  // ----- a stop that fails half-way

  // The first of two children has gone; the stop failed on it and never got to the second.
  function HalfStopped(args: Args): Sup {
    TwoRunning(args).(children := [Row(1, Child(0, 1, args, true, true)), Running(2, 1, 2, args)], stopping := true, live := {2})
  }

  // The signal about the first, sent before the stop, only removes it.
  function FirstRemoved(args: Args): Sup {
    HalfStopped(args).(children := [Running(2, 1, 2, args)])
  }

  function StillSpawning(args: Args): Sup {
    Sup([Running(3, 1, 3, args)], [0], None, 4, true, [Decision(0, true)], 0, {3}, 4)
  }

  // One step of a run, handled or not, kept folded.
  ghost predicate Leads(cfg: Config, s: Sup, a: Action, s': Sup) {
    forall n: nat {:trigger Unfold(n)} :: Unfold(n) ==>
      SpecsKnown(cfg, s) && Allowed(cfg, s, a) && s' == After(Step(cfg, s, a))
  }

  ghost predicate AllLead(cfg: Config, states: seq<Sup>, actions: seq<Action>) {
    |states| == |actions| + 1 && forall i :: 0 <= i < |actions| ==> Leads(cfg, states[i], actions[i], states[i + 1])
  }

  lemma LeadsMakeRun(cfg: Config, states: seq<Sup>, actions: seq<Action>)
    requires AllLead(cfg, states, actions)
    ensures IsRun(cfg, states, actions)
  {
    assert Unfold(0);
    forall i | 0 <= i < |actions|
      ensures SpecsKnown(cfg, states[i]) && Allowed(cfg, states[i], actions[i])
      ensures states[i + 1] == After(Step(cfg, states[i], actions[i]))
    {
      assert Leads(cfg, states[i], actions[i], states[i + 1]);
    }
  }

  lemma StepLeads(cfg: Config, s: Sup, a: Action, s': Sup)
    requires Steps(cfg, s, a, s')
    ensures Leads(cfg, s, a, s')
  {
    assert Unfold(0);
  }

  lemma DeathLeads(cfg: Config, s: Sup, ref: Ref)
    requires SpecsKnown(cfg, s)
    ensures Leads(cfg, s, Dies(ref), s.(live := s.live - {ref}))
  {
  }

  lemma StopFails(args: Args)
    ensures Stop(TwoRunning(args).(live := {2})) == Threw(HalfStopped(args))
    ensures Leads(Permanents(OneForOne, 2, args), TwoRunning(args).(live := {2}), StopSelf, HalfStopped(args))
  {
    var s := TwoRunning(args).(live := {2});
    assert !CanStop(s, s.children[0]);
    assert FirstGone(s, AllAsked(s.children), 0) == Some(0);
    assert HaltUpTo(s.children, AllAsked(s.children), 0, true) == HalfStopped(args).children;
  }

  lemma FirstIsRemoved(args: Args)
    ensures Leads(Permanents(OneForOne, 2, args), HalfStopped(args), Down(1, Error, 0), FirstRemoved(args))
  {
    var s := HalfStopped(args);
    FindAt(s.children, 0);
    assert s.children[..0] + s.children[1..] == [Running(2, 1, 2, args)];
  }

  lemma SecondRespawns(args: Args)
    ensures Leads(Permanents(OneForOne, 2, args), FirstRemoved(args).(live := {}), Down(2, Error, 0), StillSpawning(args))
  {
    var cfg, s := Permanents(OneForOne, 2, args), FirstRemoved(args).(live := {});
    assert s.children[..0] + s.children[1..] == [];
    var decided := s.(children := [], times := [0], decisions := [Decision(0, true)]);
    RestartAllowed(cfg, s.(children := []));
    assert Register(cfg, s.(children := []), 0) == Done((decided, true));
    PutLast([], Running(3, 1, 3, args));
    assert [] + [Running(3, 1, 3, args)] == StillSpawning(args).children;
    assert {} + {3} == {3};
  }

  lemma TwoDie(args: Args)
    ensures var cfg := Permanents(OneForOne, 2, args);
            && Leads(cfg, TwoRunning(args), Dies(1), TwoRunning(args).(live := {2}))
            && Leads(cfg, FirstRemoved(args), Dies(2), FirstRemoved(args).(live := {}))
  {
    var cfg := Permanents(OneForOne, 2, args);
    assert {1, 2} - {1} == {2} && {2} - {2} == {};
    DeathLeads(cfg, TwoRunning(args), 1);
    DeathLeads(cfg, FirstRemoved(args), 2);
  }

  lemma SevenLead(cfg: Config, s0: Sup, a0: Action, s1: Sup, a1: Action, s2: Sup, a2: Action, s3: Sup, a3: Action, s4: Sup,
                  a4: Action, s5: Sup, a5: Action, s6: Sup, a6: Action, s7: Sup)
    requires Leads(cfg, s0, a0, s1) && Leads(cfg, s1, a1, s2) && Leads(cfg, s2, a2, s3) && Leads(cfg, s3, a3, s4)
    requires Leads(cfg, s4, a4, s5) && Leads(cfg, s5, a5, s6) && Leads(cfg, s6, a6, s7)
    ensures AllLead(cfg, [s0, s1, s2, s3, s4, s5, s6, s7], [a0, a1, a2, a3, a4, a5, a6])
  {
    ThreeLead(cfg, s0, a0, s1, a1, s2, a2, s3);
    ThreeLead(cfg, s3, a3, s4, a4, s5, a5, s6);
    assert AllLead(cfg, [s6, s7], [a6]);
    LeadsJoin(cfg, [s0, s1, s2, s3], [a0, a1, a2], [s3, s4, s5, s6], [a3, a4, a5]);
    LeadsJoin(cfg, [s0, s1, s2, s3] + [s3, s4, s5, s6][1..], [a0, a1, a2] + [a3, a4, a5], [s6, s7], [a6]);
    assert [s0, s1, s2, s3] + [s3, s4, s5, s6][1..] + [s6, s7][1..] == [s0, s1, s2, s3, s4, s5, s6, s7];
    assert [a0, a1, a2] + [a3, a4, a5] + [a6] == [a0, a1, a2, a3, a4, a5, a6];
  }

  lemma ThreeLead(cfg: Config, s0: Sup, a0: Action, s1: Sup, a1: Action, s2: Sup, a2: Action, s3: Sup)
    requires Leads(cfg, s0, a0, s1) && Leads(cfg, s1, a1, s2) && Leads(cfg, s2, a2, s3)
    ensures AllLead(cfg, [s0, s1, s2, s3], [a0, a1, a2])
  {
  }

  lemma LeadsJoin(cfg: Config, states: seq<Sup>, actions: seq<Action>, more: seq<Sup>, others: seq<Action>)
    requires AllLead(cfg, states, actions) && AllLead(cfg, more, others) && states[|actions|] == more[0]
    ensures AllLead(cfg, states + more[1..], actions + others)
  {
    var states', actions', n := states + more[1..], actions + others, |actions|;
    forall i | 0 <= i < |actions'|
      ensures Leads(cfg, states'[i], actions'[i], states'[i + 1])
    {
      if i < n {
        assert states'[i] == states[i] && states'[i + 1] == states[i + 1] && actions'[i] == actions[i];
      } else {
        assert states'[i] == more[i - n] && states'[i + 1] == more[i - n + 1] && actions'[i] == others[i - n];
      }
    }
  }

  // A run in which a supervisor, stopped by a call that failed, goes on restarting a child. Signals
  // are handled in the order in which the children died.
  lemma HalfStoppedSpawns(args: Args)
    ensures IsRun(Permanents(OneForOne, 2, args),
                  [New(), OneRunning(args), TwoRunning(args), TwoRunning(args).(live := {2}), HalfStopped(args),
                   FirstRemoved(args), FirstRemoved(args).(live := {}), StillSpawning(args)],
                  [Start(0, args), Start(1, args), Dies(1), StopSelf, Down(1, Error, 0), Dies(2), Down(2, Error, 0)])
    ensures HalfStopped(args).stopping && StillSpawning(args).nextOrder > HalfStopped(args).nextOrder
  {
    var cfg := Permanents(OneForOne, 2, args);
    var states := [New(), OneRunning(args), TwoRunning(args), TwoRunning(args).(live := {2}), HalfStopped(args),
                   FirstRemoved(args), FirstRemoved(args).(live := {}), StillSpawning(args)];
    TwoStart(OneForOne, 2, args);
    StepLeads(cfg, states[0], Start(0, args), states[1]);
    StepLeads(cfg, states[1], Start(1, args), states[2]);
    TwoDie(args);
    StopFails(args);
    FirstIsRemoved(args);
    SecondRespawns(args);
    SevenLead(cfg, states[0], Start(0, args), states[1], Start(1, args), states[2], Dies(1), states[3], StopSelf, states[4],
              Down(1, Error, 0), states[5], Dies(2), states[6], Down(2, Error, 0), states[7]);
    LeadsMakeRun(cfg, states, [Start(0, args), Start(1, args), Dies(1), StopSelf, Down(1, Error, 0), Dies(2), Down(2, Error, 0)]);
  }
}
