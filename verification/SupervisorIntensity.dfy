/**
  The limit on restart intensity, over whole runs.
*/
module SupervisorIntensity {
  import opened ActorControl
  import opened Collections
  import opened Supervisors

  function TimesOf(decisions: seq<Decision>): seq<Time> {
    seq(|decisions|, i requires 0 <= i < |decisions| => decisions[i].time)
  }

  ghost predicate Rising(times: seq<Time>) {
    forall i, j :: 0 <= i < j < |times| ==> times[i] <= times[j]
  }

  lemma {:induction false} NoneRecent(times: seq<Time>, now: Time, within: Time)
    requires forall i :: 0 <= i < |times| ==> now - times[i] > within
    ensures Recent(times, now, within) == []
    decreases |times|
  {
    if times != [] {
      NoneRecent(times[..|times| - 1], now, within);
    }
  }

  // With a clock that never goes back, what is recent is the latest part.
  lemma {:induction false} RecentIsSuffix(times: seq<Time>, now: Time, within: Time) returns (m: nat)
    requires Rising(times)
    ensures m <= |times| && Recent(times, now, within) == times[m..]
    ensures forall i :: 0 <= i < m ==> now - times[i] > within
    ensures forall i :: m <= i < |times| ==> now - times[i] <= within
    decreases |times|
  {
    var n := |times|;
    if n == 0 {
      m := 0;
    } else if now - times[n - 1] > within {
      NoneRecent(times, now, within);
      m := n;
    } else {
      m := RecentIsSuffix(times[..n - 1], now, within);
      assert times[m..] == times[..n - 1][m..] + [times[n - 1]];
    }
  }

  // The j-th decision allows a restart exactly when restarts are allowed at all and the decision
  // `maxRestarts` before it, if there is one, is out of the window.
  predicate Justified(cfg: Config, decisions: seq<Decision>, j: nat)
    requires j < |decisions|
  {
    decisions[j].accepted <==>
      && cfg.maxRestarts > 0
      && (j >= cfg.maxRestarts ==> decisions[j].time - decisions[j - cfg.maxRestarts].time > cfg.within)
  }

  // The remembered times are the latest decisions, and all earlier ones have left the window.
  ghost predicate Remembers(cfg: Config, times: seq<Time>, decisions: seq<Decision>, k: nat) {
    && k <= |decisions|
    && times == TimesOf(decisions[k..])
    && forall i :: 0 <= i < k ==> decisions[|decisions| - 1].time - decisions[i].time > cfg.within
  }

  ghost predicate IntensityInv(cfg: Config, times: seq<Time>, decisions: seq<Decision>) {
    && Rising(TimesOf(decisions))
    && (cfg.maxRestarts > 0 ==> exists k: nat :: Remembers(cfg, times, decisions, k))
    && forall j :: 0 <= j < |decisions| ==> Justified(cfg, decisions, j)
  }

  // What is remembered when a decision is made at `now`.
  lemma RemembersMore(cfg: Config, times: seq<Time>, decisions: seq<Decision>, k: nat, d: Decision) returns (k': nat)
    requires Rising(TimesOf(decisions)) && Remembers(cfg, times, decisions, k)
    requires decisions != [] ==> decisions[|decisions| - 1].time <= d.time
    ensures Remembers(cfg, Recent(times, d.time, cfg.within) + [d.time], decisions + [d], k')
    ensures k' <= |decisions|
    ensures forall i :: k' <= i < |decisions| ==> d.time - decisions[i].time <= cfg.within
  {
    assert forall i :: 0 <= i < |times| ==> times[i] == decisions[k + i].time;
    forall i, j | 0 <= i < j < |times|
      ensures times[i] <= times[j]
    {
      assert TimesOf(decisions)[k + i] <= TimesOf(decisions)[k + j];
    }
    var m := RecentIsSuffix(times, d.time, cfg.within);
    k' := k + m;
    assert times[m..] + [d.time] == TimesOf((decisions + [d])[k'..]);
    forall i | 0 <= i < k'
      ensures d.time - (decisions + [d])[i].time > cfg.within
    {
      if i >= k {
        assert times[i - k] == decisions[i].time;
      }
    }
    forall i | k' <= i < |decisions|
      ensures d.time - decisions[i].time <= cfg.within
    {
      assert times[i - k] == decisions[i].time;
    }
  }

  lemma RisesOn(decisions: seq<Decision>, d: Decision)
    requires Rising(TimesOf(decisions)) && (decisions != [] ==> decisions[|decisions| - 1].time <= d.time)
    ensures Rising(TimesOf(decisions + [d]))
  {
    var n := |decisions|;
    assert forall i :: 0 <= i < n ==> TimesOf(decisions)[i] == decisions[i].time;
    assert n > 0 ==> forall i :: 0 <= i < n ==> TimesOf(decisions)[i] <= TimesOf(decisions)[n - 1];
  }

  // What was justified stays so when there are more decisions.
  lemma StillJustified(cfg: Config, decisions: seq<Decision>, d: Decision)
    requires forall j :: 0 <= j < |decisions| ==> Justified(cfg, decisions, j)
    requires Justified(cfg, decisions + [d], |decisions|)
    ensures forall j :: 0 <= j <= |decisions| ==> Justified(cfg, decisions + [d], j)
  {
    forall j | 0 <= j < |decisions|
      ensures Justified(cfg, decisions + [d], j)
    {
      assert Justified(cfg, decisions, j);
    }
  }

  // A decision that remembers all that is recent, and nothing else, is justified.
  lemma DecisionJustified(cfg: Config, decisions: seq<Decision>, d: Decision, k: nat)
    requires cfg.maxRestarts > 0 && k <= |decisions|
    requires d.accepted <==> |decisions| + 1 - k <= cfg.maxRestarts
    requires forall i :: 0 <= i < k ==> d.time - decisions[i].time > cfg.within
    requires forall i :: k <= i < |decisions| ==> d.time - decisions[i].time <= cfg.within
    ensures Justified(cfg, decisions + [d], |decisions|)
  {
  }

  lemma RegisterKeepsIntensity(cfg: Config, s: Sup, now: Time)
    requires IntensityInv(cfg, s.times, s.decisions)
    requires s.decisions != [] ==> s.decisions[|s.decisions| - 1].time <= now
    ensures var (s', _) := After(Register(cfg, s, now)); IntensityInv(cfg, s'.times, s'.decisions)
  {
    RegisterRecords(cfg, s, now);
    var (s', accepted) := After(Register(cfg, s, now));
    DecisionKeepsIntensity(cfg, s.times, s.decisions, s'.times, Decision(now, accepted));
  }

  lemma RegisterRecords(cfg: Config, s: Sup, now: Time)
    ensures var (s', accepted) := After(Register(cfg, s, now));
            && s'.decisions == s.decisions + [Decision(now, accepted)]
            && s'.times == (if cfg.maxRestarts == 0 then s.times else Recent(s.times, now, cfg.within) + [now])
            && (accepted <==> cfg.maxRestarts > 0 && |s'.times| <= cfg.maxRestarts)
            && (accepted || s'.stopping)
  {
  }

  lemma DecisionKeepsIntensity(cfg: Config, times: seq<Time>, decisions: seq<Decision>, times': seq<Time>, d: Decision)
    requires IntensityInv(cfg, times, decisions)
    requires decisions != [] ==> decisions[|decisions| - 1].time <= d.time
    requires times' == if cfg.maxRestarts == 0 then times else Recent(times, d.time, cfg.within) + [d.time]
    requires d.accepted <==> cfg.maxRestarts > 0 && |times'| <= cfg.maxRestarts
    ensures IntensityInv(cfg, times', decisions + [d])
  {
    RisesOn(decisions, d);
    if cfg.maxRestarts > 0 {
      var k: nat :| Remembers(cfg, times, decisions, k);
      var k' := RemembersMore(cfg, times, decisions, k, d);
      assert |times'| == |decisions| + 1 - k';
      RememberedOut(cfg, times', decisions, d, k');
      DecisionJustified(cfg, decisions, d, k');
    }
    StillJustified(cfg, decisions, d);
  }

  lemma RememberedOut(cfg: Config, times: seq<Time>, decisions: seq<Decision>, d: Decision, k: nat)
    requires Remembers(cfg, times, decisions + [d], k) && k <= |decisions|
    ensures forall i :: 0 <= i < k ==> d.time - decisions[i].time > cfg.within
  {
    assert forall i :: 0 <= i < k ==> (decisions + [d])[i] == decisions[i];
  }

  // `s'` has decided nothing more than `s`, or what registering a restart at `now` decides.
  ghost predicate Decides(cfg: Config, s: Sup, now: Time, s': Sup) {
    || (s'.times == s.times && s'.decisions == s.decisions)
    || DecidesOne(cfg, s, now, s')
  }

  ghost predicate DecidesOne(cfg: Config, s: Sup, now: Time, s': Sup) {
    var (decided, accepted) := After(Register(cfg, s, now));
    s'.times == decided.times && s'.decisions == decided.decisions && (accepted || s'.stopping)
  }

  // Only an abnormal enough termination, outside a group, decides on a restart; and then it is
  // `Register` that does.
  lemma StepDecides(cfg: Config, s: Sup, a: Action) returns (before: Sup)
    requires Inv(cfg, s) && Allowed(cfg, s, a)
    ensures before.times == s.times && before.decisions == s.decisions
    ensures var s' := After(Step(cfg, s, a));
            || (s'.times == s.times && s'.decisions == s.decisions)
            || (a.Down? && DecidesOne(cfg, before, a.now, s'))
  {
    before := s;
    match a
    case Down(ref, reason, now) =>
      if ref != 0 && s.group.Some? {
        GroupStopHistory(cfg, s, ref);
      } else if ref != 0 && Find(s.children, ref).Some? {
        before := TerminateHistory(cfg, s, ref, reason, now);
      }
    case Restart(spec) =>
      var unsuppressed := s.(children := Unsuppress(s.children, spec));
      FlagsKeepInv(cfg, s, unsuppressed);
      if RestartChild(cfg, s, spec).Done? {
        RestartEachKeepsInv(cfg, unsuppressed, spec, RefsOf(s.children, spec));
      } else {
        RestartEachLeavesInv(cfg, unsuppressed, spec, RefsOf(s.children, spec));
      }
    case _ =>
  }

  lemma GroupStopHistory(cfg: Config, s: Sup, ref: Ref)
    requires Inv(cfg, s) && s.group.Some?
    ensures GroupStop(cfg, s, ref).times == s.times && GroupStop(cfg, s, ref).decisions == s.decisions
    ensures GroupStop(cfg, s, ref).stopping == s.stopping
  {
    var erased := s.(children := Erase(s.children, ref), group := None);
    ErasedIsFewer(s.children, ref);
    FewerKeepInv(cfg, s, Erase(s.children, ref));
    RespawnAllKeepsInv(cfg, erased, s.group.value.plan);
  }

  lemma TerminateHistory(cfg: Config, s: Sup, ref: Ref, reason: Reason, now: Time) returns (before: Sup)
    requires Inv(cfg, s) && s.group.None? && Find(s.children, ref).Some?
    ensures before == s.(children := Erase(s.children, ref))
    ensures Decides(cfg, before, now, After(Terminate(cfg, s, ref, reason, now)))
  {
    before := s.(children := Erase(s.children, ref));
    var child := s.children[Find(s.children, ref).value].child;
    ErasedIsFewer(s.children, ref);
    FewerKeepInv(cfg, s, Erase(s.children, ref));
    if !(child.suppress || !ShouldRestart(PolicyOf(cfg, child.spec), reason)) {
      RestartFailedHistory(cfg, before, ref, child, reason, now);
    }
  }

  lemma RestartFailedHistory(cfg: Config, s: Sup, ref: Ref, child: Child, reason: Reason, now: Time)
    requires Inv(cfg, s) && child.spec < |cfg.specs|
    ensures DecidesOne(cfg, s, now, After(RestartFailed(cfg, s, ref, child, reason, now)))
  {
    RegisterRecords(cfg, s, now);
    if Register(cfg, s, now).Done? {
      RegisterKeepsInv(cfg, s, now);
      var (decided, accepted) := Register(cfg, s, now).value;
      if accepted && cfg.strategy != OneForOne && cfg.strategy != SimpleOneForOne {
        BeginGroupHistory(cfg, decided, ref, child, reason);
      }
    }
  }

  lemma BeginGroupHistory(cfg: Config, s: Sup, ref: Ref, failed: Child, reason: Reason)
    requires Inv(cfg, s) && failed.spec < |cfg.specs|
    ensures After(BeginGroup(cfg, s, ref, failed, reason)).times == s.times
    ensures After(BeginGroup(cfg, s, ref, failed, reason)).decisions == s.decisions
  {
    var plan := [PlanItem(ref, failed, reason)] + PlannedItems(cfg, failed, s.children);
    var halted := s.(children := HaltPlanned(cfg, failed, s.children), group := None);
    PlannedItemsKnown(cfg, failed, s.children);
    assert forall k :: 0 <= k < |plan| ==> plan[k].child.spec < |cfg.specs|;
    if BeginGroup(cfg, s, ref, failed, reason).Done? {
      FlagsKeepInv(cfg, s, halted);
      RespawnAllKeepsInv(cfg, halted, plan);
    } else {
      LeftBeginningKeepsInv(cfg, s, failed, plan);
    }
  }

  lemma StepKeepsIntensity(cfg: Config, s: Sup, a: Action)
    requires Inv(cfg, s) && Allowed(cfg, s, a) && IntensityInv(cfg, s.times, s.decisions)
    ensures var s' := After(Step(cfg, s, a)); IntensityInv(cfg, s'.times, s'.decisions)
  {
    var before := StepDecides(cfg, s, a);
    var s' := After(Step(cfg, s, a));
    if !(s'.times == s.times && s'.decisions == s.decisions) {
      RegisterKeepsIntensity(cfg, before, a.now);
    }
  }

  lemma {:induction false} RunKeepsIntensity(cfg: Config, states: seq<Sup>, actions: seq<Action>, i: nat)
    requires IsRun(cfg, states, actions) && Inv(cfg, states[0]) && Initial(states[0]) && i <= |actions|
    ensures IntensityInv(cfg, states[i].times, states[i].decisions)
  {
    if i == 0 {
      assert Remembers(cfg, [], [], 0);
    } else {
      var s, a := states[i - 1], actions[i - 1];
      RunKeepsIntensity(cfg, states, actions, i - 1);
      RunKeepsInv(cfg, states, actions, i - 1);
      assert states[i - 1 + 1] == After(Step(cfg, s, a));
      StepKeepsIntensity(cfg, s, a);
    }
  }

  // In every run, any `maxRestarts` + 1 accepted restarts span strictly more than the window.
  lemma AcceptedRestartsSpanTheWindow(cfg: Config, states: seq<Sup>, actions: seq<Action>, at: seq<nat>)
    requires IsRun(cfg, states, actions) && Inv(cfg, states[0]) && Initial(states[0])
    requires Positions(at, |states[|actions|].decisions|) && |at| == cfg.maxRestarts + 1
    requires forall i :: 0 <= i < |at| ==> states[|actions|].decisions[at[i]].accepted
    ensures states[|actions|].decisions[at[|at| - 1]].time - states[|actions|].decisions[at[0]].time > cfg.within
  {
    RunKeepsIntensity(cfg, states, actions, |actions|);
    var decisions := states[|actions|].decisions;
    var last := at[|at| - 1];
    PositionsSpread(at, |decisions|, |at| - 1);
    assert Justified(cfg, decisions, last);
    var k := last - cfg.maxRestarts;
    if at[0] < k {
      assert TimesOf(decisions)[at[0]] <= TimesOf(decisions)[k];
    }
  }

  // A restart is refused exactly when restarts are not allowed at all, or the decision
  // `maxRestarts` before it is still within the window.
  lemma RefusedExactlyWhenWindowFull(cfg: Config, states: seq<Sup>, actions: seq<Action>, j: nat)
    requires IsRun(cfg, states, actions) && Inv(cfg, states[0]) && Initial(states[0])
    requires j < |states[|actions|].decisions|
    ensures var decisions := states[|actions|].decisions;
            !decisions[j].accepted <==>
              || cfg.maxRestarts == 0
              || (j >= cfg.maxRestarts && decisions[j].time - decisions[j - cfg.maxRestarts].time <= cfg.within)
  {
    RunKeepsIntensity(cfg, states, actions, |actions|);
    assert Justified(cfg, states[|actions|].decisions, j);
  }
}
