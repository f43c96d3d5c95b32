/**
  Which terminations a supervisor answers with a restart, and what its administration does,
  stated row by row.
*/
module SupervisorDecisions {
  import opened ActorControl
  import opened Collections
  import opened Supervisors
  import opened SupervisorGroups
  import opened SupervisorPopulation

  // ----- the decision

  // Permanent children are always restarted, transient ones unless they end normally, temporary
  // ones and those whose restart is suppressed never.
  predicate CallsForRestart(cfg: Config, child: Child, reason: Reason)
    requires child.spec < |cfg.specs|
  {
    !child.suppress &&
    (cfg.specs[child.spec].policy == Permanent || (cfg.specs[child.spec].policy == Transient && reason != Normal))
  }

  // Outside a group the termination of a registered child is a restart decision exactly if its
  // policy, the suppression of its restart and the reason call for one. Otherwise the child is
  // taken off the map, and nothing else happens.
  lemma TerminationDecides(cfg: Config, s: Sup, i: nat, reason: Reason, now: Time)
    requires Inv(cfg, s) && s.group.None? && i < |s.children|
    ensures var outcome, child := Terminate(cfg, s, s.children[i].ref, reason, now), s.children[i].child;
            if CallsForRestart(cfg, child, reason) then DecidedOnce(s, After(outcome), now)
            else outcome == Done(s.(children := s.children[..i] + s.children[i + 1..]))
  {
    FindAt(s.children, i);
    var child, erased := s.children[i].child, s.(children := s.children[..i] + s.children[i + 1..]);
    SubsequenceWithout(s.children, i);
    FewerKeepInv(cfg, s, erased.children);
    if CallsForRestart(cfg, child, reason) {
      FailureDecides(cfg, erased, s.children[i].ref, child, reason, now);
    }
  }

  // There is one more decision, made now.
  ghost predicate DecidedOnce(s: Sup, s': Sup, now: Time) {
    && |s'.decisions| == |s.decisions| + 1 && s'.decisions[..|s.decisions|] == s.decisions
    && s'.decisions[|s.decisions|].time == now
  }

  lemma FailureDecides(cfg: Config, s: Sup, ref: Ref, child: Child, reason: Reason, now: Time)
    requires Inv(cfg, s) && child.spec < |cfg.specs|
    ensures DecidedOnce(s, After(RestartFailed(cfg, s, ref, child, reason, now)), now)
  {
    RegisterKnown(cfg, s, now);
    var registered := Register(cfg, s, now);
    assert DecidedOnce(s, After(registered).0, now);
    if registered.Done? && registered.value.1 {
      var decided := registered.value.0;
      RegisterKeepsInv(cfg, s, now);
      PlannedItemsKnown(cfg, child, decided.children);
      BeginDecidesNothing(cfg, decided, ref, child, reason);
    }
  }

  lemma BeginDecidesNothing(cfg: Config, s: Sup, ref: Ref, failed: Child, reason: Reason)
    requires Inv(cfg, s) && failed.spec < |cfg.specs|
    ensures var s' := After(BeginGroup(cfg, s, ref, failed, reason)); s'.decisions == s.decisions && s'.selfStops == s.selfStops
  {
    var plan := [PlanItem(ref, failed, reason)] + PlannedItems(cfg, failed, s.children);
    PlannedItemsKnown(cfg, failed, s.children);
    var halted := s.(children := HaltPlanned(cfg, failed, s.children), group := None);
    FlagsKeepInv(cfg, s, halted);
    RespawnAllKeepsInv(cfg, halted, plan);
  }

  // ----- children that are not restarted

  // The registered children of this specification; of those only the unsuppressed, if `owed`.
  ghost function RefsWith(rows: seq<Row>, spec: nat, owed: bool): set<Ref> {
    set k | 0 <= k < |rows| && rows[k].child.spec == spec && !(owed && rows[k].child.suppress) :: rows[k].ref
  }

  // Whatever child of this specification was suppressed still is.
  ghost predicate StillSuppressed(rows: seq<Row>, others: seq<Row>, spec: nat)
    requires |rows| == |others|
  {
    forall k :: 0 <= k < |rows| && rows[k].child.spec == spec && rows[k].child.suppress ==> others[k].child.suppress
  }

  lemma SameRefsWith(rows: seq<Row>, others: seq<Row>, spec: nat, owed: bool)
    requires SameChildren(rows, others) && (owed ==> StillSuppressed(rows, others, spec))
    ensures RefsWith(others, spec, owed) <= RefsWith(rows, spec, owed)
  {
    forall k | 0 <= k < |rows|
      ensures others[k].ref == rows[k].ref && others[k].child.spec == rows[k].child.spec
    {
      assert SameChild(rows[k], others[k]);
    }
  }

  lemma FewerRefsWith(rows: seq<Row>, all: seq<Row>, spec: nat, owed: bool)
    requires Subsequence(rows, all)
    ensures RefsWith(rows, spec, owed) <= RefsWith(all, spec, owed)
  {
  }

  lemma OtherSpecJoins(rows: seq<Row>, row: Row, spec: nat, owed: bool)
    requires row.child.spec != spec
    ensures RefsWith(rows + [row], spec, owed) == RefsWith(rows, spec, owed)
  {
    assert forall k :: 0 <= k < |rows| ==> (rows + [row])[k] == rows[k];
  }

  lemma OtherSpecStarts(cfg: Config, s: Sup, started: nat, args: Args, spec: nat, owed: bool)
    requires Inv(cfg, s) && started < |cfg.specs| && started != spec
    ensures RefsWith(StartChild(cfg, s, started, args).children, spec, owed) == RefsWith(s.children, spec, owed)
  {
    if StartChild(cfg, s, started, args) != s {
      SpawnAppends(cfg, s, started, args);
      OtherSpecJoins(s.children, Row(s.nextRef, Child(started, s.nextOrder, args, false, false)), spec, owed);
    }
  }

  // ----- one step under the one-by-one strategies

  // The termination handled, if any, does not call for restarting a child of this specification.
  predicate NotRestarted(cfg: Config, s: Sup, a: Action, spec: nat)
    requires spec < |cfg.specs|
  {
    a.Down? ==>
      forall k :: 0 <= k < |s.children| && s.children[k].ref == a.ref && s.children[k].child.spec == spec ==>
        !CallsForRestart(cfg, s.children[k].child, a.reason)
  }

  // Nobody starts or restarts children of this specification.
  predicate NotStarted(a: Action, spec: nat) {
    a != Restart(spec) && !(a.Start? && a.spec == spec)
  }

  lemma RestartedOther(cfg: Config, s: Sup, ref: Ref, child: Child, reason: Reason, now: Time, spec: nat, owed: bool)
    requires Inv(cfg, s) && child.spec < |cfg.specs| && child.spec != spec && OneByOne(cfg)
    ensures RefsWith(After(RestartFailed(cfg, s, ref, child, reason, now)).children, spec, owed) <= RefsWith(s.children, spec, owed)
  {
    RegisterKnown(cfg, s, now);
    var decided := After(Register(cfg, s, now)).0;
    SameRefsWith(s.children, decided.children, spec, owed);
    if Register(cfg, s, now).Done? && Register(cfg, s, now).value.1 {
      RegisterKeepsInv(cfg, s, now);
      OtherSpecStarts(cfg, decided, child.spec, child.args, spec, owed);
    }
  }

  lemma SignalSpawnsNoneOf(cfg: Config, s: Sup, i: nat, reason: Reason, now: Time, spec: nat, owed: bool)
    requires Inv(cfg, s) && s.group.None? && OneByOne(cfg) && i < |s.children| && spec < |cfg.specs|
    requires CallsForRestart(cfg, s.children[i].child, reason) ==> s.children[i].child.spec != spec
    ensures RefsWith(After(Terminate(cfg, s, s.children[i].ref, reason, now)).children, spec, owed) <= RefsWith(s.children, spec, owed)
  {
    var rest := s.children[..i] + s.children[i + 1..];
    FindAt(s.children, i);
    SubsequenceWithout(s.children, i);
    FewerRefsWith(rest, s.children, spec, owed);
    FewerKeepInv(cfg, s, rest);
    if CallsForRestart(cfg, s.children[i].child, reason) {
      RestartedOther(cfg, s.(children := rest), s.children[i].ref, s.children[i].child, reason, now, spec, owed);
    }
  }

  lemma {:induction false} RestartSpawnsOthers(cfg: Config, s: Sup, restarted: nat, refs: seq<Ref>, spec: nat, owed: bool)
    requires Inv(cfg, s) && restarted < |cfg.specs| && restarted != spec
    requires forall k :: 0 <= k < |s.children| && s.children[k].ref in refs ==> s.children[k].child.spec == restarted
    ensures RefsWith(After(RestartEach(cfg, s, restarted, refs)).children, spec, owed) <= RefsWith(s.children, spec, owed)
    decreases |refs|
  {
    if refs != [] && Find(s.children, refs[0]).Some? {
      var next, i := After(RestartOne(cfg, s, restarted, refs[0])), Find(s.children, refs[0]).value;
      var row := s.children[i];
      assert row.ref in refs;
      if row.child.stopping {
        StartChildKeepsInv(cfg, s, restarted, row.child.args);
        OtherSpecStarts(cfg, s, restarted, row.child.args, spec, owed);
      } else {
        FlagsKeepInv(cfg, s, next);
        SameRefsWith(s.children, next.children, spec, owed);
      }
      RestartSpawnsOthers(cfg, next, restarted, refs[1..], spec, owed);
    }
  }

  lemma RestartSpawnsNoneOf(cfg: Config, s: Sup, restarted: nat, spec: nat, owed: bool)
    requires Inv(cfg, s) && restarted < |cfg.specs| && restarted != spec
    ensures RefsWith(After(RestartChild(cfg, s, restarted)).children, spec, owed) <= RefsWith(s.children, spec, owed)
  {
    var u, refs := s.(children := Unsuppress(s.children, restarted)), RefsOf(s.children, restarted);
    FlagsKeepInv(cfg, s, u);
    SameRefsWith(s.children, u.children, spec, owed);
    ListedIsOf(cfg, s, restarted);
    RestartSpawnsOthers(cfg, u, restarted, refs, spec, owed);
  }

  // Stop requests that suppress restarts, and nothing else.
  lemma HaltingSpawnsNoneOf(s: Sup, s': Sup, spec: nat, owed: bool)
    requires s' == After(Stop(s)) || exists stopped :: s' == After(StopChild(s, stopped))
    ensures RefsWith(s'.children, spec, owed) <= RefsWith(s.children, spec, owed)
  {
    SameRefsWith(s.children, s'.children, spec, owed);
  }

  lemma DeleteSpawnsNoneOf(s: Sup, deleted: nat, spec: nat, owed: bool)
    requires DeleteChild(s, deleted).Done?
    ensures RefsWith(DeleteChild(s, deleted).value.children, spec, owed) <= RefsWith(s.children, spec, owed)
  {
    var halted := StopChild(s, deleted).value;
    OtherSpecsIsFewer(halted.children, deleted);
    HaltingSpawnsNoneOf(s, halted, spec, owed);
    FewerRefsWith(OtherSpecs(halted.children, deleted), halted.children, spec, owed);
  }

  lemma StepSpawnsNoneOf(cfg: Config, s: Sup, a: Action, spec: nat, owed: bool)
    requires Inv(cfg, s) && Allowed(cfg, s, a) && OneByOne(cfg) && s.group.None? && spec < |cfg.specs|
    requires NotRestarted(cfg, s, a, spec) && NotStarted(a, spec)
    ensures RefsWith(After(Step(cfg, s, a)).children, spec, owed) <= RefsWith(s.children, spec, owed)
  {
    match a
    case Down(ref, reason, now) =>
      if ref != 0 && Find(s.children, ref).Some? {
        SignalSpawnsNoneOf(cfg, s, Find(s.children, ref).value, reason, now, spec, owed);
      }
    case Start(other, args) => OtherSpecStarts(cfg, s, other, args, spec, owed);
    case Restart(other) => RestartSpawnsNoneOf(cfg, s, other, spec, owed);
    case StopSelf => HaltingSpawnsNoneOf(s, After(Stop(s)), spec, owed);
    case StopOne(stopped) => HaltingSpawnsNoneOf(s, After(StopChild(s, stopped)), spec, owed);
    case Delete(deleted) =>
      if DeleteChild(s, deleted).Done? {
        DeleteSpawnsNoneOf(s, deleted, spec, owed);
      } else {
        HaltingSpawnsNoneOf(s, After(StopChild(s, deleted)), spec, owed);
      }
    case _ =>
  }

  // ----- whole runs under the one-by-one strategies

  lemma StepBeginsNoGroup(cfg: Config, s: Sup, a: Action)
    requires Inv(cfg, s) && Allowed(cfg, s, a) && OneByOne(cfg) && s.group.None?
    ensures After(Step(cfg, s, a)).group.None?
  {
    match a
    case Down(ref, reason, now) => if ref != 0 { SignalBeginsNoGroup(cfg, s, ref, reason, now); }
    case Restart(spec) => RestartBeginsNoGroup(s.(children := Unsuppress(s.children, spec)), cfg, spec, RefsOf(s.children, spec));
    case _ =>
  }

  lemma SignalBeginsNoGroup(cfg: Config, s: Sup, ref: Ref, reason: Reason, now: Time)
    requires Inv(cfg, s) && OneByOne(cfg) && s.group.None?
    ensures After(Terminate(cfg, s, ref, reason, now)).group.None?
  {
  }

  lemma {:induction false} RestartBeginsNoGroup(s: Sup, cfg: Config, spec: nat, refs: seq<Ref>)
    requires s.group.None?
    ensures After(RestartEach(cfg, s, spec, refs)).group.None?
    decreases |refs|
  {
    if refs != [] && RestartOne(cfg, s, spec, refs[0]).Done? {
      RestartBeginsNoGroup(RestartOne(cfg, s, spec, refs[0]).value, cfg, spec, refs[1..]);
    }
  }

  // A run under one of these strategies, and where it stands.
  ghost predicate IsPlainRun(cfg: Config, states: seq<Sup>, actions: seq<Action>) {
    OneByOne(cfg) && IsRun(cfg, states, actions) && Inv(cfg, states[0]) && states[0].group.None?
  }

  lemma {:induction false} NeverGrouped(cfg: Config, states: seq<Sup>, actions: seq<Action>, i: nat)
    requires IsPlainRun(cfg, states, actions) && i <= |actions|
    ensures Inv(cfg, states[i]) && states[i].group.None?
  {
    RunKeepsInv(cfg, states, actions, i);
    if i > 0 {
      NeverGrouped(cfg, states, actions, i - 1);
      assert Allowed(cfg, states[i - 1], actions[i - 1]) && states[i - 1 + 1] == After(Step(cfg, states[i - 1], actions[i - 1]));
      StepBeginsNoGroup(cfg, states[i - 1], actions[i - 1]);
    }
  }

  lemma NoneAtStep(cfg: Config, states: seq<Sup>, actions: seq<Action>, k: nat, spec: nat, owed: bool)
    requires IsPlainRun(cfg, states, actions) && k < |actions| && spec < |cfg.specs|
    requires NotRestarted(cfg, states[k], actions[k], spec) && NotStarted(actions[k], spec)
    ensures RefsWith(states[k + 1].children, spec, owed) <= RefsWith(states[k].children, spec, owed)
  {
    NeverGrouped(cfg, states, actions, k);
    assert Allowed(cfg, states[k], actions[k]) && states[k + 1] == After(Step(cfg, states[k], actions[k]));
    StepSpawnsNoneOf(cfg, states[k], actions[k], spec, owed);
  }

  // No signal about a child of this specification says anything but a normal end.
  ghost predicate EndsNormally(s: Sup, a: Action, spec: nat) {
    a.Down? && a.reason != Normal ==> a.ref !in RefsWith(s.children, spec, false)
  }

  // Nobody starts or restarts them, and they are temporary or end normally.
  ghost predicate LetsEnd(cfg: Config, s: Sup, a: Action, spec: nat)
    requires spec < |cfg.specs|
  {
    NotStarted(a, spec) && (cfg.specs[spec].policy == Transient ==> EndsNormally(s, a, spec))
  }

  // Children that are not permanent: while nobody starts or restarts them, and as long as they are
  // temporary or end normally, none is ever spawned again, whatever happens to the others.
  lemma NormalEndsForGood(cfg: Config, states: seq<Sup>, actions: seq<Action>, i: nat, j: nat, spec: nat)
    requires IsPlainRun(cfg, states, actions) && i <= j <= |actions|
    requires spec < |cfg.specs| && cfg.specs[spec].policy != Permanent
    requires forall k :: i <= k < j ==> LetsEnd(cfg, states[k], actions[k], spec)
    ensures RefsWith(states[j].children, spec, false) <= RefsWith(states[i].children, spec, false)
  {
    var refs := seq(|states|, k requires 0 <= k < |states| => RefsWith(states[k].children, spec, false));
    forall k | i <= k < j
      ensures refs[k + 1] <= refs[k]
    {
      NormalAtStep(cfg, states, actions, k, spec);
    }
    FewerAndFewer(refs, i, j);
  }

  lemma {:induction false} FewerAndFewer(refs: seq<set<Ref>>, i: nat, j: nat)
    requires i <= j < |refs| && forall k :: i <= k < j ==> refs[k + 1] <= refs[k]
    ensures refs[j] <= refs[i]
    decreases j
  {
    if i < j {
      FewerAndFewer(refs, i, j - 1);
      assert refs[j - 1 + 1] <= refs[j - 1];
    }
  }

  lemma NormalAtStep(cfg: Config, states: seq<Sup>, actions: seq<Action>, k: nat, spec: nat)
    requires IsPlainRun(cfg, states, actions) && k < |actions|
    requires spec < |cfg.specs| && cfg.specs[spec].policy != Permanent && LetsEnd(cfg, states[k], actions[k], spec)
    ensures RefsWith(states[k + 1].children, spec, false) <= RefsWith(states[k].children, spec, false)
  {
    NormalNotRestarted(cfg, states[k], actions[k], spec);
    NoneAtStep(cfg, states, actions, k, spec, false);
  }

  lemma NormalNotRestarted(cfg: Config, s: Sup, a: Action, spec: nat)
    requires spec < |cfg.specs| && cfg.specs[spec].policy != Permanent && LetsEnd(cfg, s, a, spec)
    ensures NotRestarted(cfg, s, a, spec)
  {
  }

  // Once stopped, and while nobody starts or restarts them, children of any policy stay suppressed
  // and are never spawned again, whatever they end with.
  lemma {:induction false} StoppedForGood(cfg: Config, states: seq<Sup>, actions: seq<Action>, i: nat, j: nat, spec: nat)
    requires IsPlainRun(cfg, states, actions) && i < j <= |actions| && spec < |cfg.specs|
    requires actions[i] == StopOne(spec) && Step(cfg, states[i], actions[i]).Done?
    requires forall k :: i < k < j ==> NotStarted(actions[k], spec)
    ensures RefsWith(states[j].children, spec, false) <= RefsWith(states[i].children, spec, false)
    ensures RefsWith(states[j].children, spec, true) == {}
    decreases j
  {
    if j == i + 1 {
      NoneAtStep(cfg, states, actions, i, spec, false);
      assert states[i + 1].children == HaltSpec(states[i].children, spec);
    } else {
      StoppedForGood(cfg, states, actions, i, j - 1, spec);
      assert NotStarted(actions[j - 1], spec);
      SuppressedNotRestarted(cfg, states[j - 1], actions[j - 1], spec);
      NoneAtStep(cfg, states, actions, j - 1, spec, false);
      NoneAtStep(cfg, states, actions, j - 1, spec, true);
    }
  }

  lemma SuppressedNotRestarted(cfg: Config, s: Sup, a: Action, spec: nat)
    requires spec < |cfg.specs| && RefsWith(s.children, spec, true) == {}
    ensures NotRestarted(cfg, s, a, spec)
  {
    forall k | 0 <= k < |s.children| && s.children[k].child.spec == spec
      ensures s.children[k].child.suppress
    {
      assert s.children[k].ref !in RefsWith(s.children, spec, true);
    }
  }

  // ----- what the administration touches

  // Stopping the children of a specification suppresses all of them and touches no others.
  lemma StopOneTouches(s: Sup, spec: nat, k: nat)
    requires StopChild(s, spec).Done? && k < |s.children|
    ensures var s' := StopChild(s, spec).value;
            && |s'.children| == |s.children| && SameChild(s.children[k], s'.children[k])
            && (if s.children[k].child.spec == spec then s'.children[k].child.stopping && s'.children[k].child.suppress
                else s'.children[k] == s.children[k])
  {
  }

  // Deleting them takes exactly them off the map.
  lemma DeleteTakesOff(s: Sup, spec: nat, row: Row)
    requires DeleteChild(s, spec).Done?
    ensures row in DeleteChild(s, spec).value.children <==> row in s.children && row.child.spec != spec
    ensures Subsequence(DeleteChild(s, spec).value.children, s.children)
  {
    OthersUntouched(s.children, spec);
    OtherSpecsAre(s.children, spec, row);
    OtherSpecsIsFewer(s.children, spec);
  }

  lemma {:induction false} OthersUntouched(rows: seq<Row>, spec: nat)
    ensures OtherSpecs(HaltSpec(rows, spec), spec) == OtherSpecs(rows, spec)
    decreases |rows|
  {
    if rows != [] {
      OthersUntouched(rows[..|rows| - 1], spec);
      assert HaltSpec(rows, spec)[..|rows| - 1] == HaltSpec(rows[..|rows| - 1], spec);
    }
  }

  lemma {:induction false} OtherSpecsAre(rows: seq<Row>, spec: nat, row: Row)
    ensures row in OtherSpecs(rows, spec) <==> row in rows && row.child.spec != spec
    decreases |rows|
  {
    if rows != [] {
      OtherSpecsAre(rows[..|rows| - 1], spec, row);
      assert rows == rows[..|rows| - 1] + [rows[|rows| - 1]];
    }
  }

  // ----- the exit signals a supervisor sends itself

  // Restart decisions have been made, and the last one was a refusal.
  predicate Refuses(s: Sup, s': Sup) {
    |s'.decisions| > |s.decisions| && !s'.decisions[|s'.decisions| - 1].accepted
  }

  ghost predicate SignalsIfRefused(s: Sup, outcome: Outcome<Sup>) {
    After(outcome).selfStops == s.selfStops + if outcome.Done? && Refuses(s, After(outcome)) then 1 else 0
  }

  lemma FailureSignals(cfg: Config, s: Sup, ref: Ref, child: Child, reason: Reason, now: Time)
    requires Inv(cfg, s) && child.spec < |cfg.specs|
    ensures SignalsIfRefused(s, RestartFailed(cfg, s, ref, child, reason, now))
  {
    RegisterKnown(cfg, s, now);
    var registered := Register(cfg, s, now);
    if registered.Done? && registered.value.1 {
      var decided := registered.value.0;
      RegisterKeepsInv(cfg, s, now);
      PlannedItemsKnown(cfg, child, decided.children);
      BeginDecidesNothing(cfg, decided, ref, child, reason);
    }
  }

  lemma ChildSignals(cfg: Config, s: Sup, i: nat, reason: Reason, now: Time)
    requires Inv(cfg, s) && s.group.None? && i < |s.children|
    ensures SignalsIfRefused(s, Terminate(cfg, s, s.children[i].ref, reason, now))
  {
    var child, erased := s.children[i].child, s.(children := s.children[..i] + s.children[i + 1..]);
    if CallsForRestart(cfg, child, reason) {
      SubsequenceWithout(s.children, i);
      FewerKeepInv(cfg, s, erased.children);
      FailureSignals(cfg, erased, s.children[i].ref, child, reason, now);
      RestartIsTried(cfg, s, i, reason, now);
    } else {
      TerminationDecides(cfg, s, i, reason, now);
    }
  }

  lemma RestartIsTried(cfg: Config, s: Sup, i: nat, reason: Reason, now: Time)
    requires Inv(cfg, s) && s.group.None? && i < |s.children| && CallsForRestart(cfg, s.children[i].child, reason)
    ensures Terminate(cfg, s, s.children[i].ref, reason, now)
         == RestartFailed(cfg, s.(children := s.children[..i] + s.children[i + 1..]), s.children[i].ref, s.children[i].child, reason, now)
  {
    FindAt(s.children, i);
  }

  lemma GroupSignalsNone(cfg: Config, s: Sup, ref: Ref)
    requires Inv(cfg, s) && s.group.Some?
    ensures GroupStop(cfg, s, ref).selfStops == s.selfStops && GroupStop(cfg, s, ref).decisions == s.decisions
  {
    ErasedIsFewer(s.children, ref);
    FewerKeepInv(cfg, s, Erase(s.children, ref));
    RespawnAllKeepsInv(cfg, s.(children := Erase(s.children, ref), group := None), s.group.value.plan);
  }

  lemma TerminationSignals(cfg: Config, s: Sup, ref: Ref, reason: Reason, now: Time)
    requires Inv(cfg, s)
    ensures SignalsIfRefused(s, Terminate(cfg, s, ref, reason, now))
  {
    if s.group.Some? {
      GroupSignalsNone(cfg, s, ref);
    } else if Find(s.children, ref).Some? {
      ChildSignals(cfg, s, Find(s.children, ref).value, reason, now);
    }
  }

  // Handling this action ends the supervisor: a stop, or a restart that is refused.
  predicate EndsLoop(cfg: Config, s: Sup, a: Action)
    requires SpecsKnown(cfg, s) && Allowed(cfg, s, a)
  {
    Step(cfg, s, a).Done? && (a.StopSelf? || Refuses(s, Step(cfg, s, a).value))
  }

  lemma StepSignalsSelf(cfg: Config, s: Sup, a: Action)
    requires Inv(cfg, s) && Allowed(cfg, s, a)
    ensures After(Step(cfg, s, a)).selfStops == s.selfStops + if EndsLoop(cfg, s, a) then 1 else 0
  {
    match a
    case Down(ref, reason, now) => TerminationSignals(cfg, s, ref, reason, now);
    case Restart(spec) => RestartSignalsNone(cfg, s, spec);
    case _ =>
  }

  lemma RestartSignalsNone(cfg: Config, s: Sup, spec: nat)
    requires Inv(cfg, s) && spec < |cfg.specs|
    ensures SameHistory(s, After(RestartChild(cfg, s, spec)))
  {
    var u := s.(children := Unsuppress(s.children, spec));
    FlagsKeepInv(cfg, s, u);
    if RestartChild(cfg, s, spec).Done? {
      RestartEachKeepsInv(cfg, u, spec, RefsOf(s.children, spec));
    } else {
      RestartEachLeavesInv(cfg, u, spec, RefsOf(s.children, spec));
    }
  }

  // How often a run has ended the supervisor's loop so far.
  function Endings(cfg: Config, states: seq<Sup>, actions: seq<Action>, i: nat): nat
    requires IsRun(cfg, states, actions) && i <= |actions|
  {
    if i == 0 then 0
    else Endings(cfg, states, actions, i - 1) + if EndsLoop(cfg, states[i - 1], actions[i - 1]) then 1 else 0
  }

  // In any run a supervisor sends itself the exit signal that ends its loop exactly once for every
  // stop that is handled and for every restart that is refused.
  lemma {:induction false} OneSignalPerEnding(cfg: Config, states: seq<Sup>, actions: seq<Action>, i: nat)
    requires IsRun(cfg, states, actions) && Inv(cfg, states[0]) && i <= |actions|
    ensures states[i].selfStops == states[0].selfStops + Endings(cfg, states, actions, i)
  {
    if i > 0 {
      OneSignalPerEnding(cfg, states, actions, i - 1);
      RunKeepsInv(cfg, states, actions, i - 1);
      assert Allowed(cfg, states[i - 1], actions[i - 1]) && states[i - 1 + 1] == After(Step(cfg, states[i - 1], actions[i - 1]));
      StepSignalsSelf(cfg, states[i - 1], actions[i - 1]);
    }
  }
}
