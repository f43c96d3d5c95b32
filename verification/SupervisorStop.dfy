/**
  What a supervisor may still spawn once a stop has failed half-way.
*/
module SupervisorStops {
  import opened ActorControl
  import opened Collections
  import opened Supervisors
  import opened SupervisorGroups

  // A child that is restarted when it fails.
  predicate ComesBack(cfg: Config, row: Row) {
    row.child.spec < |cfg.specs| && !row.child.suppress && PolicyOf(cfg, row.child.spec) != Temporary
  }

  // An actor leaves the registry, or the signal about one that has left is handled.
  predicate IsSignal(s: Sup, a: Action) {
    a.Dies? || (a.Down? && a.ref != 0 && a.ref !in s.live)
  }

  ghost predicate OnlySignals(states: seq<Sup>, actions: seq<Action>)
    requires |states| > |actions|
  {
    forall k :: 0 <= k < |actions| ==> IsSignal(states[k], actions[k])
  }

  // Some run of signals from here spawns a child.
  ghost predicate SpawnsLater(cfg: Config, s: Sup) {
    exists states: seq<Sup>, actions: seq<Action> ::
      && IsRun(cfg, states, actions) && states[0] == s && OnlySignals(states, actions)
      && states[|actions|].nextOrder > s.nextOrder
  }

  ghost predicate CanHappen(cfg: Config, s: Sup, a: Action) {
    SpecsKnown(cfg, s) && Allowed(cfg, s, a) && IsSignal(s, a)
  }

  lemma SpawnsNow(cfg: Config, s: Sup, a: Action)
    requires CanHappen(cfg, s, a) && After(Step(cfg, s, a)).nextOrder > s.nextOrder
    ensures SpawnsLater(cfg, s)
  {
    var states := [s, After(Step(cfg, s, a))];
    assert IsRun(cfg, states, [a]) && OnlySignals(states, [a]);
  }

  lemma SpawnsAfter(cfg: Config, s: Sup, a: Action)
    requires CanHappen(cfg, s, a) && SpawnsLater(cfg, After(Step(cfg, s, a)))
    requires After(Step(cfg, s, a)).nextOrder >= s.nextOrder
    ensures SpawnsLater(cfg, s)
  {
    var states: seq<Sup>, actions: seq<Action> :|
      && IsRun(cfg, states, actions) && states[0] == After(Step(cfg, s, a)) && OnlySignals(states, actions)
      && states[|actions|].nextOrder > After(Step(cfg, s, a)).nextOrder;
    RunCons(cfg, s, a, states, actions);
  }

  lemma RunCons(cfg: Config, s: Sup, a: Action, states: seq<Sup>, actions: seq<Action>)
    requires CanHappen(cfg, s, a) && IsRun(cfg, states, actions) && OnlySignals(states, actions)
    requires states[0] == After(Step(cfg, s, a))
    ensures IsRun(cfg, [s] + states, [a] + actions) && OnlySignals([s] + states, [a] + actions)
  {
    var states', actions' := [s] + states, [a] + actions;
    forall i | 0 <= i < |actions'|
      ensures SpecsKnown(cfg, states'[i]) && Allowed(cfg, states'[i], actions'[i]) && IsSignal(states'[i], actions'[i])
      ensures states'[i + 1] == After(Step(cfg, states'[i], actions'[i]))
    {
      if i > 0 {
        assert states'[i] == states[i - 1] && actions'[i] == actions[i - 1] && states'[i + 1] == states[i - 1 + 1];
      }
    }
  }

  // ----- a group in progress ends, and then spawns

  ghost predicate NotRegistered(rows: seq<Row>, spec: nat) {
    forall k :: 0 <= k < |rows| ==> rows[k].child.spec != spec
  }

  // The group waits for someone, and will restart the child that failed.
  ghost predicate WillSpawn(cfg: Config, s: Sup) {
    && SpecsKnown(cfg, s) && s.group.Some?
    && var Group(plan, pending) := s.group.value;
    && pending != [] && 0 !in pending
    && plan != [] && Comes(cfg, plan[0]) && NotRegistered(s.children, plan[0].child.spec)
  }

  lemma {:induction false} RespawnAllGrows(cfg: Config, s: Sup, plan: seq<PlanItem>)
    requires forall k :: 0 <= k < |plan| ==> plan[k].child.spec < |cfg.specs|
    ensures RespawnAll(cfg, s, plan).nextOrder >= s.nextOrder
    decreases |plan|
  {
    if plan != [] {
      var respawned := if ShouldRestart(PolicyOf(cfg, plan[0].child.spec), plan[0].reason) then Respawn(cfg, s, plan[0].child) else s;
      RespawnAllGrows(cfg, respawned, plan[1..]);
    }
  }

  lemma FinalizeSpawns(cfg: Config, s: Sup)
    requires SpecsKnown(cfg, s) && s.group.Some? && s.group.value.plan != []
    requires Comes(cfg, s.group.value.plan[0]) && NotRegistered(s.children, s.group.value.plan[0].child.spec)
    ensures Finalize(cfg, s).nextOrder > s.nextOrder
  {
    var plan, ended := s.group.value.plan, s.(group := None);
    RespawnAllGrows(cfg, Respawn(cfg, ended, plan[0].child), plan[1..]);
  }

  // The time of the last decision: a signal may be handled at that time.
  function LastTime(s: Sup): Time {
    if s.decisions == [] then 0 else s.decisions[|s.decisions| - 1].time
  }

  lemma ErasedRows(rows: seq<Row>, ref: Ref, k: nat)
    requires k < |Erase(rows, ref)|
    ensures Erase(rows, ref)[k] in rows
  {
  }

  lemma {:induction false} GroupSpawns(cfg: Config, s: Sup)
    requires WillSpawn(cfg, s)
    ensures SpawnsLater(cfg, s)
    decreases |s.group.value.pending|, s.group.value.pending[0] in s.live
  {
    var Group(plan, pending) := s.group.value;
    var ref := pending[0];
    if ref in s.live {
      GroupSpawns(cfg, s.(live := s.live - {ref}));
      SpawnsAfter(cfg, s, Dies(ref));
    } else {
      var a := Down(ref, Stopped, LastTime(s));
      var stopped := s.(children := Erase(s.children, ref), group := Some(Group(plan, pending[1..])));
      ErasedStillSpawns(cfg, s, stopped, ref);
      assert Without(pending, ref) == pending[1..];
      if pending[1..] == [] {
        FinalizeSpawns(cfg, stopped);
        SpawnsNow(cfg, s, a);
      } else {
        GroupSpawns(cfg, stopped);
        SpawnsAfter(cfg, s, a);
      }
    }
  }

  lemma ErasedStillSpawns(cfg: Config, s: Sup, stopped: Sup, ref: Ref)
    requires WillSpawn(cfg, s)
    requires stopped == s.(children := Erase(s.children, ref), group := Some(Group(s.group.value.plan, s.group.value.pending[1..])))
    ensures SpecsKnown(cfg, stopped) && NotRegistered(stopped.children, s.group.value.plan[0].child.spec)
    ensures 0 !in s.group.value.pending[1..]
  {
    forall k | 0 <= k < |stopped.children|
      ensures stopped.children[k] in s.children
    {
      ErasedRows(s.children, ref, k);
    }
  }

  // ----- a child fails, and then it or a group with it is restarted

  lemma {:induction false} NoneRecent(times: seq<Time>, now: Time, within: Time)
    requires forall k :: 0 <= k < |times| ==> now - times[k] > within
    ensures Recent(times, now, within) == []
    decreases |times|
  {
    if times != [] {
      NoneRecent(times[..|times| - 1], now, within);
    }
  }

  // A time at which no restart is in the window any more.
  lemma {:induction false} LateEnough(times: seq<Time>, within: Time, least: Time) returns (now: Time)
    ensures least <= now && forall k :: 0 <= k < |times| ==> now - times[k] > within
    decreases |times|
  {
    if times == [] {
      now := least;
    } else {
      var n := |times| - 1;
      now := LateEnough(times[..n], within, least);
      assert forall k :: 0 <= k < n ==> times[..n][k] == times[k];
      if now - times[n] <= within {
        now := times[n] + within + 1;
      }
    }
  }

  lemma Accepted(cfg: Config, s: Sup, now: Time)
    requires cfg.maxRestarts > 0 && Recent(s.times, now, cfg.within) == []
    ensures Register(cfg, s, now) == Done((s.(times := [now], decisions := s.decisions + [Decision(now, true)]), true))
  {
    assert [] + [now] == [now];
  }

  lemma {:induction false} PlannedRefsPositive(cfg: Config, failed: Child, rows: seq<Row>)
    requires forall k :: 0 <= k < |rows| ==> rows[k].ref > 0
    ensures 0 !in PlannedRefs(cfg, failed, rows)
    decreases |rows|
  {
    if rows != [] {
      PlannedRefsPositive(cfg, failed, rows[..|rows| - 1]);
    }
  }

  // Beginning a group for a child that is off the map: it spawns at once, or waits and will.
  lemma BegunWillSpawn(cfg: Config, s: Sup, ref: Ref, failed: Child, reason: Reason)
    requires Inv(cfg, s) && s.group.None? && Comes(cfg, PlanItem(ref, failed, reason)) && NotRegistered(s.children, failed.spec)
    ensures var s' := After(BeginGroup(cfg, s, ref, failed, reason));
            (s'.nextOrder == s.nextOrder && WillSpawn(cfg, s')) || s'.nextOrder > s.nextOrder
  {
    PlannedItemsKnown(cfg, failed, s.children);
    if BeginGroup(cfg, s, ref, failed, reason).Threw? {
      LeftWillSpawn(cfg, s, ref, failed, reason);
    } else {
      PlannedRefsPositive(cfg, failed, s.children);
      var plan := [PlanItem(ref, failed, reason)] + PlannedItems(cfg, failed, s.children);
      var begun := s.(group := Some(Group(plan, PlannedRefs(cfg, failed, s.children))),
                      children := HaltPlanned(cfg, failed, s.children));
      if PlannedRefs(cfg, failed, s.children) == [] {
        FinalizeSpawns(cfg, begun);
      }
    }
  }

  lemma LeftWillSpawn(cfg: Config, s: Sup, ref: Ref, failed: Child, reason: Reason)
    requires Inv(cfg, s) && s.group.None? && Comes(cfg, PlanItem(ref, failed, reason)) && NotRegistered(s.children, failed.spec)
    requires BeginGroup(cfg, s, ref, failed, reason).Threw?
    ensures BeginGroup(cfg, s, ref, failed, reason).left.nextOrder == s.nextOrder
    ensures WillSpawn(cfg, BeginGroup(cfg, s, ref, failed, reason).left)
  {
    var plan := [PlanItem(ref, failed, reason)] + PlannedItems(cfg, failed, s.children);
    var k := PlannedGoneAt(cfg, s, failed);
    PlannedItemsKnown(cfg, failed, s.children);
    PlannedRefsPositive(cfg, failed, s.children[..k + 1]);
    var left := s.(group := Some(Group(plan, PlannedRefs(cfg, failed, s.children[..k + 1]))),
                   children := HaltUpTo(s.children, PlannedAsked(cfg, failed, s.children), k, false));
    assert LeftBeginning(cfg, s, failed, plan) == left;
    PlannedWillSpawn(cfg, s, left);
  }

  // The same children, with other flags, in a group for a child that is not registered.
  lemma PlannedWillSpawn(cfg: Config, s: Sup, s': Sup)
    requires SpecsKnown(cfg, s) && |s'.children| == |s.children|
    requires forall k :: 0 <= k < |s.children| ==> s'.children[k].child.spec == s.children[k].child.spec
    requires s'.group.Some? && s'.group.value.pending != [] && 0 !in s'.group.value.pending
    requires forall k :: 0 <= k < |s'.group.value.plan| ==> s'.group.value.plan[k].child.spec < |cfg.specs|
    requires s'.group.value.plan != [] && Comes(cfg, s'.group.value.plan[0])
    requires NotRegistered(s.children, s'.group.value.plan[0].child.spec)
    ensures WillSpawn(cfg, s')
  {
  }

  // The planned child that has gone, and that a failing group waits for.
  lemma PlannedGoneAt(cfg: Config, s: Sup, failed: Child) returns (k: nat)
    requires exists j :: 0 <= j < |s.children| && Planned(cfg, failed, s.children[j]) && !CanStop(s, s.children[j])
    ensures k < |s.children| && FirstGone(s, PlannedAsked(cfg, failed, s.children), 0) == Some(k)
    ensures PlannedRefs(cfg, failed, s.children[..k + 1]) != []
  {
    var asked := PlannedAsked(cfg, failed, s.children);
    var j :| 0 <= j < |s.children| && Planned(cfg, failed, s.children[j]) && !CanStop(s, s.children[j]);
    assert asked[j];
    k := FirstGone(s, asked, 0).value;
    assert s.children[..k + 1][k] == s.children[k];
  }

  lemma DeadChildSpawns(cfg: Config, s: Sup, c: nat)
    requires Inv(cfg, s) && s.group.None? && cfg.maxRestarts > 0
    requires c < |s.children| && ComesBack(cfg, s.children[c]) && s.children[c].ref !in s.live
    ensures SpawnsLater(cfg, s)
  {
    var row, erased := s.children[c], s.(children := s.children[..c] + s.children[c + 1..]);
    var now := LateEnough(s.times, cfg.within, LastTime(s));
    NoneRecent(s.times, now, cfg.within);
    TerminateRestarts(cfg, s, c, Error, now);
    Accepted(cfg, erased, now);
    var decided := erased.(times := [now], decisions := s.decisions + [Decision(now, true)]);
    ErasedInv(cfg, s, c, decided);
    if cfg.strategy == OneForOne || cfg.strategy == SimpleOneForOne {
      assert Step(cfg, s, Down(row.ref, Error, now)) == Done(Respawn(cfg, decided, row.child));
      SpawnsNow(cfg, s, Down(row.ref, Error, now));
    } else {
      assert Step(cfg, s, Down(row.ref, Error, now)) == BeginGroup(cfg, decided, row.ref, row.child, Error);
      BegunWillSpawn(cfg, decided, row.ref, row.child, Error);
      var s' := After(BeginGroup(cfg, decided, row.ref, row.child, Error));
      if s'.nextOrder > s.nextOrder {
        SpawnsNow(cfg, s, Down(row.ref, Error, now));
      } else {
        GroupSpawns(cfg, s');
        SpawnsAfter(cfg, s, Down(row.ref, Error, now));
      }
    }
  }

  lemma ErasedInv(cfg: Config, s: Sup, c: nat, decided: Sup)
    requires Inv(cfg, s) && s.group.None? && c < |s.children|
    requires decided == s.(children := s.children[..c] + s.children[c + 1..], times := decided.times, decisions := decided.decisions)
    ensures Inv(cfg, decided)
    ensures cfg.strategy != SimpleOneForOne ==> NotRegistered(decided.children, s.children[c].child.spec)
  {
    SubsequenceWithout(s.children, c);
    FewerKeepInv(cfg, s, decided.children);
  }

  lemma ChildSpawns(cfg: Config, s: Sup, c: nat)
    requires Inv(cfg, s) && s.group.None? && cfg.maxRestarts > 0
    requires c < |s.children| && ComesBack(cfg, s.children[c])
    ensures SpawnsLater(cfg, s)
  {
    var ref := s.children[c].ref;
    if ref in s.live {
      DeadChildSpawns(cfg, s.(live := s.live - {ref}), c);
      SpawnsAfter(cfg, s, Dies(ref));
    } else {
      DeadChildSpawns(cfg, s, c);
    }
  }

  // ----- otherwise nothing is spawned

  // Stopping, with no group, and no child that would be restarted.
  ghost predicate Quiet(cfg: Config, s: Sup) {
    && s.stopping && s.group.None?
    && (cfg.maxRestarts == 0 || forall k :: 0 <= k < |s.children| ==> !ComesBack(cfg, s.children[k]))
  }

  // Some of the children, perhaps suppressed.
  ghost predicate NoMore(rows: seq<Row>, others: seq<Row>) {
    forall k :: 0 <= k < |rows| ==> rows[k].child.suppress || rows[k] in others
  }

  lemma StaysQuiet(cfg: Config, s: Sup, s': Sup)
    requires Quiet(cfg, s) && NoMore(s'.children, s.children) && s'.stopping && s'.group.None?
    ensures Quiet(cfg, s')
  {
  }

  lemma QuietTerminate(cfg: Config, s: Sup, ref: Ref, reason: Reason, now: Time)
    requires Inv(cfg, s) && Quiet(cfg, s)
    ensures var s' := After(Terminate(cfg, s, ref, reason, now));
            s'.children == Erase(s.children, ref) && s'.stopping && s'.group.None? && s'.nextOrder == s.nextOrder
  {
    match Find(s.children, ref)
    case None => NoRestartOutcome(cfg, s, ref, reason, now);
    case Some(i) =>
      var child := s.children[i].child;
      if child.suppress || !ShouldRestart(PolicyOf(cfg, child.spec), reason) {
        NoRestartOutcome(cfg, s, ref, reason, now);
      } else {
        assert !ComesBack(cfg, s.children[i]) || cfg.maxRestarts == 0;
        TerminateRestarts(cfg, s, i, reason, now);
        Refused(cfg, s.(children := s.children[..i] + s.children[i + 1..]), now);
      }
  }

  // With no restarts allowed, a supervisor that is stopping already only notes another stop.
  lemma Refused(cfg: Config, s: Sup, now: Time)
    requires cfg.maxRestarts == 0 && s.stopping
    ensures Register(cfg, s, now)
         == Done((s.(decisions := s.decisions + [Decision(now, false)], selfStops := s.selfStops + 1), false))
  {
  }

  lemma QuietDown(cfg: Config, s: Sup, ref: Ref, reason: Reason, now: Time)
    requires Inv(cfg, s) && Quiet(cfg, s)
    ensures var s' := After(Terminate(cfg, s, ref, reason, now)); Quiet(cfg, s') && s'.nextOrder == s.nextOrder
  {
    var s' := After(Terminate(cfg, s, ref, reason, now));
    QuietTerminate(cfg, s, ref, reason, now);
    forall k | 0 <= k < |s'.children|
      ensures s'.children[k] in s.children
    {
      ErasedRows(s.children, ref, k);
    }
    StaysQuiet(cfg, s, s');
  }

  lemma QuietStopOne(cfg: Config, s: Sup, spec: nat)
    requires Quiet(cfg, s)
    ensures var s' := After(StopChild(s, spec)); Quiet(cfg, s') && s'.nextOrder == s.nextOrder
  {
    StaysQuiet(cfg, s, After(StopChild(s, spec)));
  }

  lemma {:induction false} OtherSpecsFrom(rows: seq<Row>, spec: nat)
    ensures forall k :: 0 <= k < |OtherSpecs(rows, spec)| ==> OtherSpecs(rows, spec)[k] in rows
    decreases |rows|
  {
    if rows != [] {
      OtherSpecsFrom(rows[..|rows| - 1], spec);
    }
  }

  lemma QuietDelete(cfg: Config, s: Sup, spec: nat)
    requires Quiet(cfg, s)
    ensures var s' := After(DeleteChild(s, spec)); Quiet(cfg, s') && s'.nextOrder == s.nextOrder
  {
    QuietStopOne(cfg, s, spec);
    if StopChild(s, spec).Done? {
      var halted := StopChild(s, spec).value;
      OtherSpecsFrom(halted.children, spec);
      StaysQuiet(cfg, halted, DeleteChild(s, spec).value);
    }
  }

  lemma QuietStep(cfg: Config, s: Sup, a: Action)
    requires Inv(cfg, s) && Quiet(cfg, s) && Allowed(cfg, s, a) && NoStarts(a)
    ensures var s' := After(Step(cfg, s, a)); Quiet(cfg, s') && s'.nextOrder == s.nextOrder
  {
    match a
    case Down(ref, reason, now) => QuietDown(cfg, s, ref, reason, now);
    case StopOne(spec) => QuietStopOne(cfg, s, spec);
    case Delete(spec) => QuietDelete(cfg, s, spec);
    case _ =>
  }

  // A quiet supervisor spawns nothing, whatever signals arrive, whoever stops or deletes children,
  // and whatever fails.
  lemma {:induction false} QuietSpawnsNothing(cfg: Config, states: seq<Sup>, actions: seq<Action>, i: nat)
    requires IsRun(cfg, states, actions) && Inv(cfg, states[0]) && Quiet(cfg, states[0]) && i <= |actions|
    requires forall k :: 0 <= k < i ==> NoStarts(actions[k])
    ensures Quiet(cfg, states[i]) && states[i].nextOrder == states[0].nextOrder
  {
    if i > 0 {
      QuietSpawnsNothing(cfg, states, actions, i - 1);
      QuietAtStep(cfg, states, actions, i - 1);
    }
  }

  lemma QuietAtStep(cfg: Config, states: seq<Sup>, actions: seq<Action>, k: nat)
    requires IsRun(cfg, states, actions) && Inv(cfg, states[0]) && k < |actions|
    requires Quiet(cfg, states[k]) && NoStarts(actions[k])
    ensures Quiet(cfg, states[k + 1]) && states[k + 1].nextOrder == states[k].nextOrder
  {
    RunKeepsInv(cfg, states, actions, k);
    assert states[k + 1] == After(Step(cfg, states[k], actions[k]));
    QuietStep(cfg, states[k], actions[k]);
  }

  // ----- a stop that fails

  // What a stop that fails leaves: the children up to the one that has gone are stopping and
  // suppressed; the others, and the group, are as they were.
  lemma FailedStopLeaves(cfg: Config, s: Sup)
    requires Inv(cfg, s) && !s.stopping && Stop(s).Threw?
    ensures var left, g := Stop(s).left, GoneAt(s);
            && Inv(cfg, left) && left == s.(children := left.children, stopping := true)
            && 0 <= g < |s.children| == |left.children|
            && (forall k :: 0 <= k <= g ==> left.children[k] == Halted(s.children[k], true))
            && (forall k :: g < k < |s.children| ==> left.children[k] == s.children[k])
  {
    FlagsKeepInv(cfg, s, Stop(s).left);
  }

  // The group that is in progress will still restart the child that failed.
  lemma FailedStopInGroup(cfg: Config, s: Sup)
    requires RunInv(cfg, s) && !s.stopping && Stop(s).Threw? && s.group.Some?
    ensures WillSpawn(cfg, Stop(s).left)
  {
    FailedStopLeaves(cfg, s);
    FailedIsUnregistered(cfg, s);
    var left := Stop(s).left;
    assert forall k :: 0 <= k < |s.children| ==> left.children[k].child.spec == s.children[k].child.spec;
    assert forall k :: 0 <= k < |s.group.value.pending| ==> s.group.value.pending[k] == Awaited(s)[k].ref > 0;
  }

  lemma FailedIsUnregistered(cfg: Config, s: Sup)
    requires RunInv(cfg, s) && s.group.Some?
    ensures s.group.value.plan != [] && NotRegistered(s.children, s.group.value.plan[0].child.spec)
  {
    assert s.children == Kept(s) + Awaited(s);
    AwaitedAreOthers(Awaited(s), s.group.value.plan);
    KeptAreOthers(Kept(s), s.group.value.plan);
  }

  lemma KeptAreOthers(rows: seq<Row>, plan: seq<PlanItem>)
    requires plan != [] && NoneRegistered(rows, plan)
    ensures NotRegistered(rows, plan[0].child.spec)
  {
  }

  lemma AwaitedAreOthers(rows: seq<Row>, plan: seq<PlanItem>)
    requires plan != [] && DistinctSpecs(plan) && Subsequence(Specs(rows), PlanSpecs(plan[1..]))
    ensures NotRegistered(rows, plan[0].child.spec)
  {
    var at: seq<nat> :| PickedBy(Specs(rows), PlanSpecs(plan[1..]), at);
    forall k | 0 <= k < |rows|
      ensures rows[k].child.spec != plan[0].child.spec
    {
      assert Specs(rows)[k] == PlanSpecs(plan[1..])[at[k]] == plan[at[k] + 1].child.spec;
    }
  }

  // After a stop that fails, some run of signals spawns a child if and only if a group is in
  // progress, or restarts are allowed at all and some child after the one that has gone is neither
  // suppressed nor temporary.
  lemma FailedStopSpawnsExactly(cfg: Config, s: Sup)
    requires RunInv(cfg, s) && !s.stopping && Stop(s).Threw?
    ensures SpawnsLater(cfg, Stop(s).left)
       <==> s.group.Some? || (cfg.maxRestarts > 0 && exists k :: GoneAt(s) < k < |s.children| && ComesBack(cfg, s.children[k]))
  {
    var left := Stop(s).left;
    FailedStopLeaves(cfg, s);
    if s.group.Some? {
      FailedStopInGroup(cfg, s);
      GroupSpawns(cfg, left);
    } else if cfg.maxRestarts > 0 && exists k :: GoneAt(s) < k < |s.children| && ComesBack(cfg, s.children[k]) {
      var k :| GoneAt(s) < k < |s.children| && ComesBack(cfg, s.children[k]);
      ChildSpawns(cfg, left, k);
    } else {
      forall k | 0 <= k < |left.children|
        ensures cfg.maxRestarts == 0 || !ComesBack(cfg, left.children[k])
      {
        assert k > GoneAt(s) ==> left.children[k] == s.children[k];
      }
      NeverSpawns(cfg, left);
    }
  }

  lemma NeverSpawns(cfg: Config, s: Sup)
    requires Inv(cfg, s) && Quiet(cfg, s)
    ensures !SpawnsLater(cfg, s)
  {
    forall states: seq<Sup>, actions: seq<Action> | IsRun(cfg, states, actions) && states[0] == s && OnlySignals(states, actions)
      ensures states[|actions|].nextOrder == s.nextOrder
    {
      QuietSpawnsNothing(cfg, states, actions, |actions|);
    }
  }
}
