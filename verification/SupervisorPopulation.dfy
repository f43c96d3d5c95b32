/**
  Which children stay registered, and exactly when a supervisor fails with an exception.
*/
module SupervisorPopulation {
  import opened ActorControl
  import opened Collections
  import opened Supervisors
  import opened SupervisorGroups
  import opened SupervisorIntensity

  // ----- conservation

  datatype Member = Member(spec: nat, args: Args)

  function MemberOf(child: Child): Member {
    Member(child.spec, child.args)
  }

  // The children as a multiset of specification and arguments.
  function Members(rows: seq<Row>): multiset<Member> {
    if rows == [] then multiset{}
    else Members(rows[..|rows| - 1]) + multiset{MemberOf(rows[|rows| - 1].child)}
  }

  // Those a supervisor owes a restart whatever happens to them.
  predicate Owed(cfg: Config, row: Row) {
    row.child.spec < |cfg.specs| && PolicyOf(cfg, row.child.spec) == Permanent && !row.child.suppress
  }

  function OwedRows(cfg: Config, rows: seq<Row>): seq<Row> {
    if rows == [] then []
    else OwedRows(cfg, rows[..|rows| - 1]) + if Owed(cfg, rows[|rows| - 1]) then [rows[|rows| - 1]] else []
  }

  lemma {:induction false} MembersAppend(front: seq<Row>, back: seq<Row>)
    ensures Members(front + back) == Members(front) + Members(back)
    decreases |back|
  {
    if back == [] {
      assert front + back == front;
    } else {
      var n := |back| - 1;
      var last := multiset{MemberOf(back[n].child)};
      assert (front + back)[..|front + back| - 1] == front + back[..n];
      calc {
        Members(front + back);
        Members(front + back[..n]) + last;
        { MembersAppend(front, back[..n]); }
        Members(front) + Members(back[..n]) + last;
        Members(front) + Members(back);
      }
    }
  }

  lemma {:induction false} OwedRowsAppend(cfg: Config, front: seq<Row>, back: seq<Row>)
    ensures OwedRows(cfg, front + back) == OwedRows(cfg, front) + OwedRows(cfg, back)
    decreases |back|
  {
    if back == [] {
      assert front + back == front;
    } else {
      var n := |back| - 1;
      OwedRowsAppend(cfg, front, back[..n]);
      assert (front + back)[..|front + back| - 1] == front + back[..n];
    }
  }

  lemma OneMember(row: Row)
    ensures Members([row]) == multiset{MemberOf(row.child)}
  {
  }

  lemma OneOwed(cfg: Config, row: Row)
    ensures OwedRows(cfg, [row]) == if Owed(cfg, row) then [row] else []
  {
  }

  // Taking out the row at `i`.
  lemma MembersWithout(rows: seq<Row>, i: nat)
    requires i < |rows|
    ensures Members(rows) == Members(rows[..i] + rows[i + 1..]) + multiset{MemberOf(rows[i].child)}
  {
    AroundOne(rows, i);
    MembersAppend(rows[..i], [rows[i]] + rows[i + 1..]);
    MembersAppend([rows[i]], rows[i + 1..]);
    MembersAppend(rows[..i], rows[i + 1..]);
    OneMember(rows[i]);
  }

  lemma OwedWithout(cfg: Config, rows: seq<Row>, i: nat)
    requires i < |rows|
    ensures Members(OwedRows(cfg, rows))
         == Members(OwedRows(cfg, rows[..i] + rows[i + 1..]))
          + if Owed(cfg, rows[i]) then multiset{MemberOf(rows[i].child)} else multiset{}
  {
    var front, back := rows[..i], rows[i + 1..];
    assert rows == front + ([rows[i]] + back);
    var here := if Owed(cfg, rows[i]) then multiset{MemberOf(rows[i].child)} else multiset{};
    calc {
      Members(OwedRows(cfg, rows));
      { OwedRowsAppend(cfg, front, [rows[i]] + back); OwedRowsAppend(cfg, [rows[i]], back); }
      Members(OwedRows(cfg, front) + (OwedRows(cfg, [rows[i]]) + OwedRows(cfg, back)));
      { MembersAppend(OwedRows(cfg, front), OwedRows(cfg, [rows[i]]) + OwedRows(cfg, back));
        MembersAppend(OwedRows(cfg, [rows[i]]), OwedRows(cfg, back)); }
      Members(OwedRows(cfg, front)) + (Members(OwedRows(cfg, [rows[i]])) + Members(OwedRows(cfg, back)));
      { OneOwed(cfg, rows[i]); OneMember(rows[i]); }
      Members(OwedRows(cfg, front)) + Members(OwedRows(cfg, back)) + here;
      { MembersAppend(OwedRows(cfg, front), OwedRows(cfg, back)); OwedRowsAppend(cfg, front, back); }
      Members(OwedRows(cfg, front + back)) + here;
    }
  }

  predicate OneByOne(cfg: Config) {
    cfg.strategy == OneForOne || cfg.strategy == SimpleOneForOne
  }

  predicate IsRestarted(cfg: Config, child: Child, reason: Reason) {
    child.spec < |cfg.specs| && !child.suppress && ShouldRestart(PolicyOf(cfg, child.spec), reason)
  }

  // When the child in row `i` goes: restarted, the population is what it was; otherwise exactly
  // that child is missing. The supervisor gives up only on one it should have restarted.
  lemma TerminationConserves(cfg: Config, s: Sup, i: nat, reason: Reason, now: Time)
    requires RunInv(cfg, s) && OneByOne(cfg) && s.group.None? && i < |s.children|
    requires Terminate(cfg, s, s.children[i].ref, reason, now).Done?
    ensures var s', child := Terminate(cfg, s, s.children[i].ref, reason, now).value, s.children[i].child;
            if IsRestarted(cfg, child, reason) && !s'.stopping then Members(s'.children) == Members(s.children)
            else Members(s.children) == Members(s'.children) + multiset{MemberOf(child)}
    ensures var s' := Terminate(cfg, s, s.children[i].ref, reason, now).value;
            s'.stopping && !s.stopping ==> IsRestarted(cfg, s.children[i].child, reason)
  {
    var row, rest := s.children[i], s.children[..i] + s.children[i + 1..];
    FindAt(s.children, i);
    MembersWithout(s.children, i);
    if IsRestarted(cfg, row.child, reason) {
      SingleOutcome(cfg, s, i, reason, now);
      var newRow := Row(s.nextRef, Child(row.child.spec, s.nextOrder, row.child.args, false, false));
      MembersAppend(rest, [newRow]);
      OneMember(newRow);
      HaltedMembers(rest);
    } else {
      NoRestartOutcome(cfg, s, row.ref, reason, now);
    }
  }

  lemma {:induction false} HaltedMembers(rows: seq<Row>)
    ensures Members(HaltAll(rows)) == Members(rows)
    decreases |rows|
  {
    if rows != [] {
      var front := rows[..|rows| - 1];
      HaltedMembers(front);
      assert HaltAll(rows) == HaltAll(front) + [Halted(rows[|rows| - 1], true)];
      assert HaltAll(rows)[..|rows| - 1] == HaltAll(front);
    }
  }

  // Signals and the outside world; no administration.
  predicate Unattended(a: Action) {
    a.Down? || a.Dies? || a.SpawnedElsewhere?
  }

  lemma TerminationKeepsOwed(cfg: Config, s: Sup, ref: Ref, reason: Reason, now: Time)
    requires RunInv(cfg, s) && OneByOne(cfg) && s.group.None?
    requires Terminate(cfg, s, ref, reason, now).Done? && !Terminate(cfg, s, ref, reason, now).value.stopping
    ensures var s' := Terminate(cfg, s, ref, reason, now).value;
            Members(OwedRows(cfg, s'.children)) == Members(OwedRows(cfg, s.children))
  {
    var found := Find(s.children, ref);
    if found.None? {
      NoRestartOutcome(cfg, s, ref, reason, now);
    } else {
      var i := found.value;
      var row, rest := s.children[i], s.children[..i] + s.children[i + 1..];
      OwedWithout(cfg, s.children, i);
      if IsRestarted(cfg, row.child, reason) {
        SingleOutcome(cfg, s, i, reason, now);
        var newRow := Row(s.nextRef, Child(row.child.spec, s.nextOrder, row.child.args, false, false));
        OwedRowsAppend(cfg, rest, [newRow]);
        OneOwed(cfg, newRow);
        OneMember(newRow);
        MembersAppend(OwedRows(cfg, rest), OwedRows(cfg, [newRow]));
      } else {
        NoRestartOutcome(cfg, s, ref, reason, now);
      }
    }
  }

  lemma UnattendedStepKeepsOwed(cfg: Config, s: Sup, a: Action, s': Sup)
    requires RunInv(cfg, s) && OneByOne(cfg) && Allowed(cfg, s, a) && Unattended(a)
    requires Step(cfg, s, a) == Done(s') && !s'.stopping
    ensures Members(OwedRows(cfg, s'.children)) == Members(OwedRows(cfg, s.children))
  {
    if a.Down? && a.ref != 0 {
      TerminationKeepsOwed(cfg, s, a.ref, a.reason, a.now);
    }
  }

  lemma OwedAtStep(cfg: Config, states: seq<Sup>, actions: seq<Action>, i: nat)
    requires IsCalmRun(cfg, states, actions) && i < |actions| && RunInv(cfg, states[i]) && OneByOne(cfg)
    requires Unattended(actions[i]) && !states[i + 1].stopping
    ensures Members(OwedRows(cfg, states[i + 1].children)) == Members(OwedRows(cfg, states[i].children))
  {
    StepOf(cfg, states, actions, i);
    UnattendedStepKeepsOwed(cfg, states[i], actions[i], states[i + 1]);
  }

  // While nobody intervenes and restarts are not refused, the permanent children that are not
  // being stopped are always the same, however often they and their siblings terminate.
  lemma {:induction false} PermanentChildrenSurvive(cfg: Config, states: seq<Sup>, actions: seq<Action>, i: nat)
    requires IsCalmRun(cfg, states, actions) && RunInv(cfg, states[0]) && OneByOne(cfg)
    requires forall k :: 0 <= k < |actions| ==> Unattended(actions[k])
    requires i <= |actions| && forall k :: 0 <= k <= i ==> !states[k].stopping
    ensures Members(OwedRows(cfg, states[i].children)) == Members(OwedRows(cfg, states[0].children))
  {
    if i > 0 {
      PermanentChildrenSurvive(cfg, states, actions, i - 1);
      RunKeepsRunInv(cfg, states, actions, i - 1);
      OwedAtStep(cfg, states, actions, i - 1);
    }
  }

  // ----- a refusal is the last decision

  ghost predicate OnlyLastRefused(s: Sup) {
    && (forall j :: 0 <= j < |s.decisions| - 1 ==> s.decisions[j].accepted)
    && (!s.stopping ==> forall j :: 0 <= j < |s.decisions| ==> s.decisions[j].accepted)
  }

  lemma StepKeepsOnlyLastRefused(cfg: Config, s: Sup, a: Action)
    requires RunInv(cfg, s) && OnlyLastRefused(s) && Allowed(cfg, s, a) && Calm(s, a) && Step(cfg, s, a).Done?
    ensures OnlyLastRefused(Step(cfg, s, a).value)
  {
    if s.stopping {
      ShutStep(cfg, s, a);
    } else {
      var before := StepDecides(cfg, s, a);
      if Step(cfg, s, a).value.decisions != s.decisions {
        RegisterRecords(cfg, before, a.now);
      }
    }
  }

  lemma {:induction false} RunKeepsOnlyLastRefused(cfg: Config, states: seq<Sup>, actions: seq<Action>, i: nat)
    requires IsCalmRun(cfg, states, actions) && Initial(states[0]) && i <= |actions|
    ensures OnlyLastRefused(states[i])
  {
    if i > 0 {
      RunKeepsOnlyLastRefused(cfg, states, actions, i - 1);
      InitialRunInv(cfg, states[0]);
      RunKeepsRunInv(cfg, states, actions, i - 1);
      StepOf(cfg, states, actions, i - 1);
      StepKeepsOnlyLastRefused(cfg, states[i - 1], actions[i - 1]);
    }
  }

  // In a calmly administered run a restart is refused only if restarts are not allowed at all or
  // the window already holds as many accepted ones as it may; and it is the last decision.
  lemma RefusedWithFullWindow(cfg: Config, states: seq<Sup>, actions: seq<Action>, j: nat)
    requires IsCalmRun(cfg, states, actions) && Initial(states[0])
    requires j < |states[|actions|].decisions| && !states[|actions|].decisions[j].accepted
    ensures var decisions := states[|actions|].decisions;
            && j == |decisions| - 1
            && (cfg.maxRestarts == 0
                || (cfg.maxRestarts <= j && forall k :: j - cfg.maxRestarts <= k < j ==>
                      decisions[k].accepted && decisions[j].time - decisions[k].time <= cfg.within))
  {
    var n, decisions := |actions|, states[|actions|].decisions;
    RunKeepsOnlyLastRefused(cfg, states, actions, n);
    InitialRunInv(cfg, states[0]);
    CalmRunIsRun(cfg, states, actions);
    RunKeepsIntensity(cfg, states, actions, n);
    assert Justified(cfg, decisions, j);
    forall k | j - cfg.maxRestarts <= k < j && cfg.maxRestarts <= j
      ensures decisions[j].time - decisions[k].time <= decisions[j].time - decisions[j - cfg.maxRestarts].time
    {
      var times := TimesOf(decisions);
      assert j - cfg.maxRestarts < k ==> times[j - cfg.maxRestarts] <= times[k];
    }
  }

  // ----- exceptions

  // Whether a restart decision at `now` is within the intensity limit.
  predicate WithinLimit(cfg: Config, s: Sup, now: Time) {
    cfg.maxRestarts != 0 && |Recent(s.times, now, cfg.within)| < cfg.maxRestarts
  }

  // Whether handling `a` asks the child in row `k` to stop.
  predicate AsksToStop(cfg: Config, s: Sup, a: Action, k: nat)
    requires k < |s.children|
  {
    match a
    case StopSelf => !s.stopping
    case StopOne(spec) => s.children[k].child.spec == spec
    case Delete(spec) => s.children[k].child.spec == spec
    case Restart(spec) => s.children[k].child.spec == spec
    case Down(ref, reason, now) =>
      ref != 0 && s.group.None? &&
      (match Find(s.children, ref)
       case None => false
       case Some(i) =>
         var failed := s.children[i].child;
         k != i && IsRestarted(cfg, failed, reason) && AsksSibling(cfg, s, failed, now, s.children[k]))
    case _ => false
  }

  predicate AsksSibling(cfg: Config, s: Sup, failed: Child, now: Time, row: Row) {
    if WithinLimit(cfg, s, now) then !OneByOne(cfg) && Planned(cfg, failed, row) else !s.stopping
  }

  ghost predicate SomeoneGone(cfg: Config, s: Sup, a: Action) {
    exists k :: 0 <= k < |s.children| && AsksToStop(cfg, s, a, k) && !CanStop(s, s.children[k])
  }

  ghost predicate SiblingGone(cfg: Config, s: Sup, failed: Child, now: Time, rows: seq<Row>) {
    exists k :: 0 <= k < |rows| && AsksSibling(cfg, s, failed, now, rows[k]) && !CanStop(s, rows[k])
  }

  lemma RegisterThrows(cfg: Config, s: Sup, now: Time)
    ensures Register(cfg, s, now).Threw? <==>
              !s.stopping && !WithinLimit(cfg, s, now) && exists k :: 0 <= k < |s.children| && !CanStop(s, s.children[k])
    ensures WithinLimit(cfg, s, now) ==>
              && Register(cfg, s, now).Done?
              && var (decided, accepted) := Register(cfg, s, now).value;
                 accepted && decided == s.(times := decided.times, decisions := decided.decisions)
    ensures Register(cfg, s, now).Done? && Register(cfg, s, now).value.1 ==> WithinLimit(cfg, s, now)
  {
  }

  lemma TerminateThrows(cfg: Config, s: Sup, i: nat, reason: Reason, now: Time)
    requires Inv(cfg, s) && s.group.None? && i < |s.children|
    requires IsRestarted(cfg, s.children[i].child, reason)
    ensures Terminate(cfg, s, s.children[i].ref, reason, now).Threw?
       <==> SiblingGone(cfg, s, s.children[i].child, now, s.children[..i] + s.children[i + 1..])
  {
    var rest := s.children[..i] + s.children[i + 1..];
    var erased := s.(children := rest);
    assert WithinLimit(cfg, erased, now) == WithinLimit(cfg, s, now);
    RegisterThrows(cfg, erased, now);
    assert forall k :: 0 <= k < |rest| ==> CanStop(erased, rest[k]) == CanStop(s, rest[k]);
    if OneByOne(cfg) {
      TerminateSingle(cfg, s, i, reason, now);
    } else {
      TerminateFailing(cfg, s, i, reason, now);
      ErasedKnown(cfg, s, i, now);
      if WithinLimit(cfg, s, now) {
        BeginThrows(cfg, s, erased, s.children[i], reason, now, Register(cfg, erased, now).value.0);
      }
    }
  }

  lemma BeginThrows(cfg: Config, s: Sup, erased: Sup, row: Row, reason: Reason, now: Time, decided: Sup)
    requires SpecsKnown(cfg, decided) && row.child.spec < |cfg.specs| && !OneByOne(cfg) && WithinLimit(cfg, s, now)
    requires erased == s.(children := erased.children)
    requires decided == erased.(times := decided.times, decisions := decided.decisions)
    ensures BeginGroup(cfg, decided, row.ref, row.child, reason).Threw?
       <==> SiblingGone(cfg, s, row.child, now, erased.children)
  {
  }

  // Looking at all children but the one in row `i`.
  lemma SiblingGoneAround(cfg: Config, s: Sup, i: nat, ref: Ref, reason: Reason, now: Time)
    requires ref != 0 && s.group.None? && Find(s.children, ref) == Some(i)
    requires IsRestarted(cfg, s.children[i].child, reason)
    ensures SomeoneGone(cfg, s, Down(ref, reason, now))
       <==> SiblingGone(cfg, s, s.children[i].child, now, s.children[..i] + s.children[i + 1..])
  {
    var a, failed, rest := Down(ref, reason, now), s.children[i].child, s.children[..i] + s.children[i + 1..];
    if k: nat :| k < |s.children| && AsksToStop(cfg, s, a, k) && !CanStop(s, s.children[k]) {
      assert rest[if k < i then k else k - 1] == s.children[k];
    }
    if k: nat :| k < |rest| && AsksSibling(cfg, s, failed, now, rest[k]) && !CanStop(s, rest[k]) {
      var k' := if k < i then k else k + 1;
      assert rest[k] == s.children[k'];
      assert AsksToStop(cfg, s, a, k');
    }
  }

  ghost predicate Gone(s: Sup, ref: Ref) {
    var found := Find(s.children, ref);
    found.Some? && !CanStop(s, s.children[found.value])
  }

  lemma RestartOneKeepsInv(cfg: Config, s: Sup, spec: nat, ref: Ref)
    requires Inv(cfg, s) && spec < |cfg.specs| && RestartOne(cfg, s, spec, ref).Done?
    ensures Inv(cfg, RestartOne(cfg, s, spec, ref).value)
  {
    var i := Find(s.children, ref).value;
    if s.children[i].child.stopping {
      StartChildKeepsInv(cfg, s, spec, s.children[i].child.args);
    } else {
      FlagsKeepInv(cfg, s, RestartOne(cfg, s, spec, ref).value);
    }
  }

  lemma RestartOneEffect(cfg: Config, s: Sup, spec: nat, ref: Ref, k: nat)
    requires Inv(cfg, s) && spec < |cfg.specs| && RestartOne(cfg, s, spec, ref).Done?
    requires k < |s.children| && s.children[k].ref != ref
    ensures var s' := RestartOne(cfg, s, spec, ref).value;
            && k < |s'.children| && s'.children[k] == s.children[k]
            && (s.children[k].ref in s'.live <==> s.children[k].ref in s.live)
  {
  }

  // Restarting one child changes nothing for the others.
  lemma RestartElsewhere(cfg: Config, s: Sup, spec: nat, ref: Ref, other: Ref)
    requires Inv(cfg, s) && spec < |cfg.specs| && RestartOne(cfg, s, spec, ref).Done? && other != ref
    requires Find(s.children, other).Some?
    ensures var s' := RestartOne(cfg, s, spec, ref).value;
            Find(s'.children, other).Some? && Gone(s', other) == Gone(s, other)
  {
    var k := Find(s.children, other).value;
    RestartOneKeepsInv(cfg, s, spec, ref);
    RestartOneEffect(cfg, s, spec, ref, k);
    FindAt(RestartOne(cfg, s, spec, ref).value.children, k);
  }

  lemma {:induction false} RestartEachThrows(cfg: Config, s: Sup, spec: nat, refs: seq<Ref>)
    requires Inv(cfg, s) && spec < |cfg.specs|
    requires forall i, j :: 0 <= i < j < |refs| ==> refs[i] != refs[j]
    requires forall i :: 0 <= i < |refs| ==> Find(s.children, refs[i]).Some?
    ensures RestartEach(cfg, s, spec, refs).Threw? <==> exists i :: 0 <= i < |refs| && Gone(s, refs[i])
    decreases |refs|
  {
    if refs != [] && RestartOne(cfg, s, spec, refs[0]).Done? {
      var s', rest := RestartOne(cfg, s, spec, refs[0]).value, refs[1..];
      forall i | 0 <= i < |rest|
        ensures Find(s'.children, rest[i]).Some? && Gone(s', rest[i]) == Gone(s, refs[i + 1])
      {
        RestartElsewhere(cfg, s, spec, refs[0], rest[i]);
      }
      RestartOneKeepsInv(cfg, s, spec, refs[0]);
      RestartEachThrows(cfg, s', spec, rest);
      if i: nat :| i < |refs| && Gone(s, refs[i]) {
        assert i > 0 && Gone(s', rest[i - 1]);
      }
    }
  }

  // The row at `k` has this specification and reference.
  predicate RowIs(rows: seq<Row>, k: nat, spec: nat, ref: Ref) {
    k < |rows| && rows[k].child.spec == spec && rows[k].ref == ref
  }

  // `RefsOf` lists the references of the rows with this specification ...
  lemma {:induction false} RefsOfHasRow(rows: seq<Row>, spec: nat, i: nat) returns (k: nat)
    requires i < |RefsOf(rows, spec)|
    ensures RowIs(rows, k, spec, RefsOf(rows, spec)[i])
    decreases |rows|
  {
    var n := |rows| - 1;
    if i < |RefsOf(rows[..n], spec)| {
      k := RefsOfHasRow(rows[..n], spec, i);
    } else {
      k := n;
    }
  }

  // ... all of them ...
  lemma {:induction false} RefsOfHasAll(rows: seq<Row>, spec: nat, k: nat)
    requires k < |rows| && rows[k].child.spec == spec
    ensures rows[k].ref in RefsOf(rows, spec)
    decreases |rows|
  {
    if k < |rows| - 1 {
      RefsOfHasAll(rows[..|rows| - 1], spec, k);
    }
  }

  // ... each once.
  lemma {:induction false} RefsOfRise(rows: seq<Row>, spec: nat, i: nat, j: nat)
    requires RefsRise(rows) && i < j < |RefsOf(rows, spec)|
    ensures RefsOf(rows, spec)[i] < RefsOf(rows, spec)[j]
    decreases |rows|
  {
    var n := |rows| - 1;
    if j < |RefsOf(rows[..n], spec)| {
      RefsOfRise(rows[..n], spec, i, j);
    } else {
      var k := RefsOfHasRow(rows[..n], spec, i);
    }
  }

  lemma UnsuppressedGone(cfg: Config, s: Sup, spec: nat, k: nat)
    requires Inv(cfg, s) && k < |s.children|
    ensures var u, ref := s.(children := Unsuppress(s.children, spec)), s.children[k].ref;
            Find(u.children, ref) == Some(k) && Gone(u, ref) == !CanStop(s, s.children[k])
  {
    FlagsKeepInv(cfg, s, s.(children := Unsuppress(s.children, spec)));
    FindAt(Unsuppress(s.children, spec), k);
  }

  lemma RestartThrows(cfg: Config, s: Sup, spec: nat)
    requires Inv(cfg, s) && spec < |cfg.specs|
    ensures RestartChild(cfg, s, spec).Threw? <==> SomeoneGone(cfg, s, Restart(spec))
  {
    var u, refs, a := s.(children := Unsuppress(s.children, spec)), RefsOf(s.children, spec), Restart(spec);
    FlagsKeepInv(cfg, s, u);
    forall i, j | 0 <= i < j < |refs|
      ensures refs[i] != refs[j]
    {
      RefsOfRise(s.children, spec, i, j);
    }
    forall i | 0 <= i < |refs|
      ensures Find(u.children, refs[i]).Some?
      ensures Gone(u, refs[i]) ==> SomeoneGone(cfg, s, a)
    {
      var k := RefsOfHasRow(s.children, spec, i);
      UnsuppressedGone(cfg, s, spec, k);
      assert AsksToStop(cfg, s, a, k);
    }
    RestartEachThrows(cfg, u, spec, refs);
    if k: nat :| k < |s.children| && AsksToStop(cfg, s, a, k) && !CanStop(s, s.children[k]) {
      RefsOfHasAll(s.children, spec, k);
      UnsuppressedGone(cfg, s, spec, k);
      var i: nat :| i < |refs| && refs[i] == s.children[k].ref;
      assert Gone(u, refs[i]);
    }
  }

  // ----- what a restart request does

  // Each of these children, if running, is asked to stop with its restart no longer suppressed.
  function HaltListed(rows: seq<Row>, refs: seq<Ref>): seq<Row> {
    seq(|rows|, i requires 0 <= i < |rows| => if rows[i].ref in refs then Halted(rows[i], false) else rows[i])
  }

  // The arguments of those of these that are already stopping.
  function ArgsAmong(rows: seq<Row>, refs: seq<Ref>): seq<Args> {
    if refs == [] then [] else ArgsOf(rows, refs[0]) + ArgsAmong(rows, refs[1..])
  }

  function ArgsOf(rows: seq<Row>, ref: Ref): seq<Args> {
    var found := Find(rows, ref);
    if found.Some? && rows[found.value].child.stopping then [rows[found.value].child.args] else []
  }

  // One new child with each of these arguments has joined the others, in this order, all of this
  // specification and running.
  ghost predicate Joined(before: seq<Row>, now: seq<Row>, spec: nat, added: seq<Args>) {
    && |now| == |before| + |added| && now[..|before|] == before
    && forall k :: |before| <= k < |now| ==>
         now[k].child == Child(spec, now[k].child.order, added[k - |before|], false, false)
  }

  predicate Unsuppressed(rows: seq<Row>, refs: seq<Ref>) {
    forall k :: 0 <= k < |rows| && rows[k].ref in refs ==> !rows[k].child.suppress
  }

  // These are references, each once, of registered children of this specification, none suppressed.
  ghost predicate Listed(rows: seq<Row>, spec: nat, refs: seq<Ref>) {
    && (forall i, j :: 0 <= i < j < |refs| ==> refs[i] != refs[j])
    && Unsuppressed(rows, refs)
    && (forall i :: 0 <= i < |refs| ==> Find(rows, refs[i]).Some?)
    && forall k :: 0 <= k < |rows| && rows[k].ref in refs ==> rows[k].child.spec == spec
  }

  lemma FirstListed(rows: seq<Row>, spec: nat, refs: seq<Ref>)
    requires Listed(rows, spec, refs) && refs != []
    ensures Find(rows, refs[0]).Some? && rows[Find(rows, refs[0]).value].child.spec == spec && Unsuppressed(rows, [refs[0]])
  {
  }

  lemma RestartOneOutcome(cfg: Config, s: Sup, spec: nat, ref: Ref)
    requires Inv(cfg, s) && spec < |cfg.specs| && RestartOne(cfg, s, spec, ref).Done?
    requires Unsuppressed(s.children, [ref])
    requires s.children[Find(s.children, ref).value].child.spec == spec
    ensures Joined(HaltListed(s.children, [ref]), RestartOne(cfg, s, spec, ref).value.children, spec,
                   if cfg.strategy == SimpleOneForOne then ArgsOf(s.children, ref) else [])
  {
  }

  lemma {:induction false} RestartEachOutcome(cfg: Config, s: Sup, spec: nat, refs: seq<Ref>)
    requires Inv(cfg, s) && spec < |cfg.specs| && RestartEach(cfg, s, spec, refs).Done?
    requires Listed(s.children, spec, refs)
    ensures Joined(HaltListed(s.children, refs), RestartEach(cfg, s, spec, refs).value.children, spec,
                   if cfg.strategy == SimpleOneForOne then ArgsAmong(s.children, refs) else [])
    decreases |refs|
  {
    if refs == [] {
      assert HaltListed(s.children, refs) == s.children;
    } else {
      var first, rest := refs[0], refs[1..];
      var next := RestartOne(cfg, s, spec, first).value;
      RestartOneKeepsInv(cfg, s, spec, first);
      FirstListed(s.children, spec, refs);
      RestartOneOutcome(cfg, s, spec, first);
      OthersAfterRestart(cfg, s, next, spec, refs);
      RestartEachOutcome(cfg, next, spec, rest);
      var one := if cfg.strategy == SimpleOneForOne then ArgsOf(s.children, first) else [];
      var more := if cfg.strategy == SimpleOneForOne then ArgsAmong(next.children, rest) else [];
      JoinedTwice(s.children, next.children, RestartEach(cfg, next, spec, rest).value.children, spec, refs, one, more);
    }
  }

  // The rest of the list is as it was.
  lemma OthersAfterRestart(cfg: Config, s: Sup, next: Sup, spec: nat, refs: seq<Ref>)
    requires Inv(cfg, s) && Inv(cfg, next) && refs != []
    requires Listed(s.children, spec, refs)
    requires |s.children| <= |next.children| && next.children[..|s.children|] == HaltListed(s.children, [refs[0]])
    ensures Listed(next.children, spec, refs[1..])
    ensures ArgsAmong(next.children, refs[1..]) == ArgsAmong(s.children, refs[1..])
    ensures forall k :: |s.children| <= k < |next.children| ==> next.children[k].ref !in refs[1..]
  {
    forall i | 0 < i < |refs|
      ensures var k := Find(s.children, refs[i]).value;
              Find(next.children, refs[i]) == Some(k) && next.children[k] == s.children[k]
    {
      var k := Find(s.children, refs[i]).value;
      assert next.children[k] == next.children[..|s.children|][k] == s.children[k];
      FindAt(next.children, k);
    }
    forall k | 0 <= k < |next.children| && next.children[k].ref in refs[1..]
      ensures k < |s.children| && next.children[k] == s.children[k] && s.children[k].ref in refs
    {
      var i :| 0 <= i < |refs[1..]| && refs[1..][i] == next.children[k].ref;
      assert refs[i + 1] == next.children[k].ref;
      FindAt(next.children, k);
    }
    SameStopping(s.children, next.children, refs[1..]);
  }

  lemma {:induction false} SameStopping(rows: seq<Row>, others: seq<Row>, refs: seq<Ref>)
    requires forall i :: 0 <= i < |refs| ==> ArgsOf(others, refs[i]) == ArgsOf(rows, refs[i])
    ensures ArgsAmong(others, refs) == ArgsAmong(rows, refs)
    decreases |refs|
  {
    if refs != [] {
      assert forall i :: 0 <= i < |refs[1..]| ==> refs[1..][i] == refs[i + 1];
      SameStopping(rows, others, refs[1..]);
    }
  }

  lemma JoinedTwice(rows: seq<Row>, next: seq<Row>, last: seq<Row>, spec: nat, refs: seq<Ref>, one: seq<Args>, more: seq<Args>)
    requires refs != []
    requires Joined(HaltListed(rows, [refs[0]]), next, spec, one)
    requires Joined(HaltListed(next, refs[1..]), last, spec, more)
    requires forall k :: |rows| <= k < |next| ==> next[k].ref !in refs[1..]
    ensures Joined(HaltListed(rows, refs), last, spec, one + more)
  {
  }

  // The arguments of the children of this specification that are already stopping, in map order.
  function StoppingArgs(rows: seq<Row>, spec: nat): seq<Args> {
    if rows == [] then []
    else
      var last := rows[|rows| - 1].child;
      StoppingArgs(rows[..|rows| - 1], spec) + if last.spec == spec && last.stopping then [last.args] else []
  }

  lemma {:induction false} ArgsAmongSnoc(rows: seq<Row>, refs: seq<Ref>, ref: Ref)
    ensures ArgsAmong(rows, refs + [ref]) == ArgsAmong(rows, refs) + ArgsOf(rows, ref)
    decreases |refs|
  {
    if refs != [] {
      ArgsAmongSnoc(rows, refs[1..], ref);
      assert (refs + [ref])[1..] == refs[1..] + [ref];
    }
  }

  lemma {:induction false} ArgsOfSpec(rows: seq<Row>, spec: nat, n: nat)
    requires RefsRise(rows) && n <= |rows|
    ensures ArgsAmong(rows, RefsOf(rows[..n], spec)) == StoppingArgs(rows[..n], spec)
  {
    if n > 0 {
      ArgsOfSpec(rows, spec, n - 1);
      assert rows[..n][..n - 1] == rows[..n - 1];
      if rows[n - 1].child.spec == spec {
        FindAt(rows, n - 1);
        ArgsAmongSnoc(rows, RefsOf(rows[..n - 1], spec), rows[n - 1].ref);
      } else {
        assert RefsOf(rows[..n], spec) == RefsOf(rows[..n - 1], spec);
      }
    }
  }

  // A restart request: every child of the specification is asked to stop, unless it has been, and
  // will be restarted if its policy says so; nothing else changes. Except that for dynamic children
  // each that was already stopping gets a successor with its arguments at once, in map order,
  // besides the one its policy may give it.
  lemma RestartChildOutcome(cfg: Config, s: Sup, spec: nat)
    requires Inv(cfg, s) && spec < |cfg.specs| && RestartChild(cfg, s, spec).Done?
    ensures Joined(HaltOf(s.children, spec), RestartChild(cfg, s, spec).value.children, spec,
                   if cfg.strategy == SimpleOneForOne then StoppingArgs(s.children, spec) else [])
  {
    var u, refs := s.(children := Unsuppress(s.children, spec)), RefsOf(s.children, spec);
    FlagsKeepInv(cfg, s, u);
    ListedIsOf(cfg, s, spec);
    UnsuppressedListed(cfg, s, spec);
    RestartEachOutcome(cfg, u, spec, refs);
  }

  lemma UnsuppressedListed(cfg: Config, s: Sup, spec: nat)
    requires Inv(cfg, s)
    ensures var rows, refs := Unsuppress(s.children, spec), RefsOf(s.children, spec);
            Listed(rows, spec, refs) && ArgsAmong(rows, refs) == StoppingArgs(s.children, spec)
  {
    var refs, rows := RefsOf(s.children, spec), Unsuppress(s.children, spec);
    ListedIsOf(cfg, s, spec);
    forall i | 0 <= i < |refs|
      ensures Find(rows, refs[i]).Some? && ArgsOf(rows, refs[i]) == ArgsOf(s.children, refs[i])
      ensures forall j :: i < j < |refs| ==> refs[i] != refs[j]
    {
      UnsuppressedAt(cfg, s, spec, i);
    }
    SameStopping(s.children, rows, refs);
    ArgsOfSpec(s.children, spec, |s.children|);
    assert s.children[..|s.children|] == s.children;
  }

  lemma UnsuppressedAt(cfg: Config, s: Sup, spec: nat, i: nat)
    requires Inv(cfg, s) && i < |RefsOf(s.children, spec)|
    ensures var rows, refs := Unsuppress(s.children, spec), RefsOf(s.children, spec);
            Find(rows, refs[i]).Some? && ArgsOf(rows, refs[i]) == ArgsOf(s.children, refs[i])
    ensures forall j :: i < j < |RefsOf(s.children, spec)| ==> RefsOf(s.children, spec)[i] != RefsOf(s.children, spec)[j]
  {
    FlagsKeepInv(cfg, s, s.(children := Unsuppress(s.children, spec)));
    var k := RefsOfHasRow(s.children, spec, i);
    FindAt(s.children, k);
    FindAt(Unsuppress(s.children, spec), k);
    forall j | i < j < |RefsOf(s.children, spec)|
      ensures RefsOf(s.children, spec)[i] != RefsOf(s.children, spec)[j]
    {
      RefsOfRise(s.children, spec, i, j);
    }
  }

  function HaltOf(rows: seq<Row>, spec: nat): seq<Row> {
    seq(|rows|, i requires 0 <= i < |rows| => if rows[i].child.spec == spec then Halted(rows[i], false) else rows[i])
  }

  lemma ListedIsOf(cfg: Config, s: Sup, spec: nat)
    requires Inv(cfg, s)
    ensures forall k :: 0 <= k < |s.children| ==>
              (s.children[k].ref in RefsOf(s.children, spec) <==> s.children[k].child.spec == spec)
    ensures HaltListed(Unsuppress(s.children, spec), RefsOf(s.children, spec)) == HaltOf(s.children, spec)
  {
    var refs := RefsOf(s.children, spec);
    forall k | 0 <= k < |s.children|
      ensures s.children[k].ref in refs <==> s.children[k].child.spec == spec
    {
      if s.children[k].child.spec == spec {
        RefsOfHasAll(s.children, spec, k);
      } else if i: nat :| i < |refs| && refs[i] == s.children[k].ref {
        var j := RefsOfHasRow(s.children, spec, i);
      }
    }
  }

  // A call or a signal fails exactly when a child to be asked to stop has already left the registry
  // without the supervisor having asked it to: in every state, also in what an exception has left.
  lemma ThrowsExactlyWhenSomeoneIsGone(cfg: Config, s: Sup, a: Action)
    requires Inv(cfg, s) && Allowed(cfg, s, a)
    ensures Step(cfg, s, a).Threw? <==> SomeoneGone(cfg, s, a)
  {
    match a
    case Down(ref, reason, now) =>
      if ref != 0 && s.group.None? && Find(s.children, ref).Some?
         && IsRestarted(cfg, s.children[Find(s.children, ref).value].child, reason) {
        TerminateThrows(cfg, s, Find(s.children, ref).value, reason, now);
        SiblingGoneAround(cfg, s, Find(s.children, ref).value, ref, reason, now);
      } else if ref != 0 && s.group.None? {
        NoRestartOutcome(cfg, s, ref, reason, now);
      }
    case StopSelf =>
      if k: nat :| k < |s.children| && AsksToStop(cfg, s, a, k) && !CanStop(s, s.children[k]) { assert !CanStop(s, s.children[k]); }
      if k: nat :| k < |s.children| && !s.stopping && !CanStop(s, s.children[k]) { assert AsksToStop(cfg, s, a, k); }
    case StopOne(spec) => StopOneThrows(cfg, s, a, spec);
    case Delete(spec) => StopOneThrows(cfg, s, a, spec);
    case Restart(spec) => RestartThrows(cfg, s, spec);
    case _ =>
  }

  lemma StopOneThrows(cfg: Config, s: Sup, a: Action, spec: nat)
    requires a == StopOne(spec) || a == Delete(spec)
    ensures StopChild(s, spec).Threw? <==> SomeoneGone(cfg, s, a)
  {
  }

  function TwoPermanent(args: Args): Config {
    Config(OneForAll, 5, 10, [Spec(Permanent, args), Spec(Permanent, args)])
  }

  function BothDead(args: Args): Sup {
    Sup([Row(1, Child(0, 1, args, false, false)), Row(2, Child(1, 2, args, false, false))],
        [], None, 3, false, [], 0, {}, 3)
  }

  // A new supervisor starts its two children, and both die.
  lemma BothDeadReached(args: Args)
    ensures var cfg, s0 := TwoPermanent(args), Sup([], [], None, 1, false, [], 0, {}, 1);
            var s1 := StartChild(cfg, s0, 0, args);
            var s2 := StartChild(cfg, s1, 1, args);
            BothDead(args) == s2.(live := s2.live - {1} - {2})
  {
  }

  // Under `one_for_all`, if two children die before the supervisor learns of either, handling the
  // first signal fails.
  lemma TwoDeathsThrow(args: Args, now: Time)
    ensures RunInv(TwoPermanent(args), BothDead(args))
    ensures Step(TwoPermanent(args), BothDead(args), Down(1, Error, now)).Threw?
  {
    SecondIsGone(args, now);
    BothDeadSound(args);
    ThrowsExactlyWhenSomeoneIsGone(TwoPermanent(args), BothDead(args), Down(1, Error, now));
  }

  lemma BothDeadSound(args: Args)
    ensures RunInv(TwoPermanent(args), BothDead(args))
  {
  }

  lemma SecondIsGone(args: Args, now: Time)
    ensures SomeoneGone(TwoPermanent(args), BothDead(args), Down(1, Error, now))
  {
    var cfg, s := TwoPermanent(args), BothDead(args);
    FindAt(s.children, 0);
    assert Recent([], now, 10) == [];
    assert AsksToStop(cfg, s, Down(1, Error, now), 1) && !CanStop(s, s.children[1]);
  }
}
