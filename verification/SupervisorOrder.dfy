/**
  The start order of children: exactly what `rest_for_one` keeps of it over whole runs, and exactly
  when `one_for_all` keeps it.
*/
module SupervisorOrders {
  import opened ActorControl
  import opened Collections
  import opened Supervisors
  import opened SupervisorGroups
  import opened SupervisorPopulation

  // ----- lists of specifications, none twice

  ghost predicate Distinct(xs: seq<nat>) {
    forall i, j :: 0 <= i < j < |xs| ==> xs[i] != xs[j]
  }

  // The list without those gone.
  function Less(xs: seq<nat>, gone: set<nat>): seq<nat> {
    if xs == [] then []
    else Less(xs[..|xs| - 1], gone) + if xs[|xs| - 1] in gone then [] else [xs[|xs| - 1]]
  }

  lemma {:induction false} LessAppend(xs: seq<nat>, ys: seq<nat>, gone: set<nat>)
    ensures Less(xs + ys, gone) == Less(xs, gone) + Less(ys, gone)
    decreases |ys|
  {
    if ys == [] {
      assert xs + ys == xs;
    } else {
      LessAppend(xs, ys[..|ys| - 1], gone);
      assert (xs + ys)[..|xs + ys| - 1] == xs + ys[..|ys| - 1];
    }
  }

  lemma {:induction false} LessOfNone(xs: seq<nat>, gone: set<nat>)
    requires forall k :: 0 <= k < |xs| ==> xs[k] !in gone
    ensures Less(xs, gone) == xs
    decreases |xs|
  {
    if xs != [] {
      LessOfNone(xs[..|xs| - 1], gone);
    }
  }

  lemma {:induction false} LessTwice(xs: seq<nat>, gone: set<nat>, more: set<nat>)
    ensures Less(Less(xs, gone), more) == Less(xs, gone + more)
    decreases |xs|
  {
    if xs != [] {
      var front, last := xs[..|xs| - 1], xs[|xs| - 1];
      LessTwice(front, gone, more);
      if last in gone {
        assert Less(xs, gone) == Less(front, gone);
      } else {
        LessAppend(Less(front, gone), [last], more);
        LessOfOne(last, more);
      }
    }
  }

  lemma LessOfOne(x: nat, gone: set<nat>)
    ensures Less([x], gone) == if x in gone then [] else [x]
  {
    assert [x][..0] == [];
  }

  // Only those gone that are in the list matter.
  lemma {:induction false} LessSame(xs: seq<nat>, gone: set<nat>, other: set<nat>)
    requires forall k :: 0 <= k < |xs| ==> (xs[k] in gone <==> xs[k] in other)
    ensures Less(xs, gone) == Less(xs, other)
    decreases |xs|
  {
    if xs != [] {
      LessSame(xs[..|xs| - 1], gone, other);
    }
  }

  lemma {:induction false} LessIsPart(xs: seq<nat>, gone: set<nat>)
    ensures Subsequence(Less(xs, gone), xs)
    decreases |xs|
  {
    if xs == [] {
      EmptySubsequence(xs);
    } else {
      var front, last := xs[..|xs| - 1], xs[|xs| - 1];
      LessIsPart(front, gone);
      SubsequenceOfSnoc(Less(front, gone), front, last);
      assert xs == front + [last];
      assert Less(front, gone) + [] == Less(front, gone);
    }
  }

  // Dropping the one at `i`.
  lemma {:induction false} LessAt(xs: seq<nat>, i: nat)
    requires Distinct(xs) && i < |xs|
    ensures Less(xs, {xs[i]}) == xs[..i] + xs[i + 1..]
    decreases |xs|
  {
    var front, last := xs[..|xs| - 1], xs[|xs| - 1];
    if i == |xs| - 1 {
      LessOfNone(front, {last});
      assert xs[i + 1..] == [];
    } else {
      LessAt(front, i);
      assert xs[i + 1..] == front[i + 1..] + [last];
    }
  }

  ghost predicate Complements(xs: seq<nat>, ys: seq<nat>, gone: set<nat>) {
    forall k :: 0 <= k < |ys| ==> (ys[k] in gone <==> ys[k] !in xs)
  }

  // A part of a list without repetition either ends with the list's last or has no use for it.
  lemma PartEnds(xs: seq<nat>, ys: seq<nat>, gone: set<nat>)
    requires Distinct(ys) && Subsequence(xs, ys) && Complements(xs, ys, gone) && ys != []
    ensures var m, n := |xs| - 1, |ys| - 1;
            if ys[n] in gone then Subsequence(xs, ys[..n]) && Complements(xs, ys[..n], gone)
            else xs != [] && xs[m] == ys[n] && Subsequence(xs[..m], ys[..n]) && Complements(xs[..m], ys[..n], gone)
  {
    var at: seq<nat> :| PickedBy(xs, ys, at);
    var m, n := |xs| - 1, |ys| - 1;
    assert forall j :: 0 <= j < m ==> at[j] < at[m];
    if xs != [] && at[m] == n {
      assert PickedBy(xs[..m], ys[..n], at[..m]);
      forall k | 0 <= k < n
        ensures ys[k] in xs <==> ys[k] in xs[..m]
      {
        assert ys[k] != xs[m];
        assert ys[k] in xs ==> exists j :: 0 <= j < m && xs[..m][j] == ys[k];
      }
    } else {
      assert PickedBy(xs, ys[..n], at);
      assert ys[n] !in xs;
    }
  }

  // A part of a list without repetition is what is left without the others.
  lemma {:induction false} PartIsLess(xs: seq<nat>, ys: seq<nat>, gone: set<nat>)
    requires Distinct(ys) && Subsequence(xs, ys) && Complements(xs, ys, gone)
    ensures xs == Less(ys, gone)
    decreases |ys|
  {
    if ys == [] {
      NoLonger(xs, ys);
    } else {
      var m, n := |xs| - 1, |ys| - 1;
      PartEnds(xs, ys, gone);
      assert Distinct(ys[..n]);
      if ys[n] in gone {
        PartIsLess(xs, ys[..n], gone);
      } else {
        PartIsLess(xs[..m], ys[..n], gone);
        assert xs == xs[..m] + [ys[n]];
      }
    }
  }

  // ----- the line-up

  // The specifications of the children in start order; during a group, with those it will restart
  // in the places they had.
  function Lineup(s: Sup): seq<nat>
    requires s.group.Some? ==> |s.group.value.pending| <= |s.children|
  {
    if s.group.None? then Specs(s.children) else Specs(Kept(s)) + PlanSpecs(s.group.value.plan)
  }

  lemma NewRowsSpecs(items: seq<PlanItem>, ref: Ref, order: nat)
    ensures Specs(NewRows(items, ref, order)) == PlanSpecs(items)
  {
  }

  lemma SpecsAppend(rows: seq<Row>, more: seq<Row>)
    ensures Specs(rows + more) == Specs(rows) + Specs(more)
  {
  }

  lemma PlanForSpecs(ref: Ref, failed: Child, reason: Reason, siblings: seq<Row>)
    ensures PlanSpecs(PlanFor(ref, failed, reason, siblings)) == [failed.spec] + Specs(siblings)
  {
  }

  // ----- what leaves the line-up

  ghost function SpecsAt(rows: seq<Row>, ref: Ref): set<nat> {
    set k | 0 <= k < |rows| && rows[k].ref == ref :: rows[k].child.spec
  }

  // The planned siblings that are temporary; the failed child is the first item.
  ghost function TemporarySiblings(cfg: Config, plan: seq<PlanItem>): set<nat> {
    set k | 0 < k < |plan| && IsTemporary(cfg, plan[k].child.spec) :: plan[k].child.spec
  }

  predicate IsTemporary(cfg: Config, spec: nat) {
    spec < |cfg.specs| && PolicyOf(cfg, spec) == Temporary
  }

  // Planned children that have already left the map.
  ghost function NotAwaited(s: Sup): set<nat>
    requires s.group.Some? && |s.group.value.pending| <= |s.children|
  {
    set k | 0 <= k < |s.group.value.plan| && s.group.value.plan[k].child.spec !in Specs(Awaited(s)) :: s.group.value.plan[k].child.spec
  }

  // The specifications an action takes out of the line-up: of a child that is not to be restarted,
  // or whose restart the limit refuses; during a group, of a child it does not plan, and when it
  // ends of the planned temporary ones; on a stop in a group, of those it was going to restart; and
  // of a deleted child.
  ghost function Departs(cfg: Config, s: Sup, a: Action): set<nat>
    requires s.group.Some? ==> |s.group.value.pending| <= |s.children|
  {
    match a
    case Down(ref, reason, now) =>
      if ref == 0 then {}
      else if s.group.None? then (
        match Find(s.children, ref)
        case None => {}
        case Some(i) =>
          var child := s.children[i].child;
          if IsRestarted(cfg, child, reason) && WithinLimit(cfg, s, now) then {} else {child.spec}
      ) else
        SpecsAt(Kept(s), ref) +
        if Without(s.group.value.pending, ref) == [] then TemporarySiblings(cfg, s.group.value.plan) else {}
    case StopSelf => if s.group.Some? then NotAwaited(s) else {}
    case Delete(spec) => {spec}
    case _ => {}
  }

  // ----- one step

  lemma SpecsDistinct(cfg: Config, s: Sup)
    requires Inv(cfg, s) && cfg.strategy != SimpleOneForOne
    ensures Distinct(Specs(s.children))
  {
  }

  lemma {:induction false} OthersLess(rows: seq<Row>, ref: Ref)
    requires Distinct(Specs(rows))
    ensures Specs(Others(rows, ref)) == Less(Specs(rows), SpecsAt(rows, ref))
    decreases |rows|
  {
    if rows != [] {
      var front, last := rows[..|rows| - 1], rows[|rows| - 1];
      assert Specs(rows)[..|rows| - 1] == Specs(front);
      assert Distinct(Specs(front)) by { assert forall k :: 0 <= k < |front| ==> Specs(front)[k] == Specs(rows)[k]; }
      OthersLess(front, ref);
      forall k | 0 <= k < |front|
        ensures Specs(front)[k] in SpecsAt(front, ref) <==> Specs(front)[k] in SpecsAt(rows, ref)
      {
        assert Specs(rows)[k] != Specs(rows)[|rows| - 1];
        if Specs(front)[k] in SpecsAt(front, ref) {
          var j :| 0 <= j < |front| && front[j].ref == ref && front[j].child.spec == Specs(front)[k];
          assert rows[j].ref == ref;
        }
        if Specs(front)[k] in SpecsAt(rows, ref) {
          var j :| 0 <= j < |rows| && rows[j].ref == ref && rows[j].child.spec == Specs(front)[k];
          assert front[j].ref == ref;
        }
      }
      LessSame(Specs(front), SpecsAt(front, ref), SpecsAt(rows, ref));
      forall j | 0 <= j < |rows| && rows[j].ref == ref
        ensures last.ref != ref ==> rows[j].child.spec != last.child.spec
      {
        if j < |front| {
          assert Specs(rows)[j] != Specs(rows)[|rows| - 1];
        }
      }
      assert last.ref == ref <==> last.child.spec in SpecsAt(rows, ref);
      SpecsAppend(Others(front, ref), if last.ref == ref then [] else [last]);
    }
  }

  // The items that come back are those whose specifications are not gone.
  lemma {:induction false} RestartedLess(cfg: Config, items: seq<PlanItem>, gone: set<nat>)
    requires forall k :: 0 <= k < |items| ==> (Comes(cfg, items[k]) <==> items[k].child.spec !in gone)
    ensures PlanSpecs(Restarted(cfg, items)) == Less(PlanSpecs(items), gone)
    decreases |items|
  {
    if items != [] {
      var head, tail := items[0], items[1..];
      RestartedLess(cfg, tail, gone);
      assert PlanSpecs(items) == [head.child.spec] + PlanSpecs(tail);
      LessAppend([head.child.spec], PlanSpecs(tail), gone);
      LessOfOne(head.child.spec, gone);
      if Comes(cfg, head) {
        assert PlanSpecs([head] + Restarted(cfg, tail)) == [head.child.spec] + PlanSpecs(Restarted(cfg, tail));
      } else {
        assert [] + Restarted(cfg, tail) == Restarted(cfg, tail);
      }
    }
  }

  // When a group ends, of its plan only the temporary siblings do not come back.
  lemma PlanLess(cfg: Config, s: Sup)
    requires Inv(cfg, s) && GroupInv(cfg, s) && s.group.Some?
    ensures var plan := s.group.value.plan;
            PlanSpecs(Restarted(cfg, plan)) == Less(PlanSpecs(plan), TemporarySiblings(cfg, plan))
  {
    var plan := s.group.value.plan;
    forall k | 0 <= k < |plan|
      ensures Comes(cfg, plan[k]) <==> plan[k].child.spec !in TemporarySiblings(cfg, plan)
    {
      if k == 0 {
        assert forall j :: 0 < j < |plan| ==> plan[j].child.spec != plan[0].child.spec;
      }
    }
    RestartedLess(cfg, plan, TemporarySiblings(cfg, plan));
  }

  // In a group no kept child has a planned specification.
  lemma KeptAndPlanned(cfg: Config, s: Sup, gone: set<nat>, more: set<nat>)
    requires Inv(cfg, s) && GroupInv(cfg, s) && s.group.Some?
    requires forall x :: x in gone ==> x in Specs(Kept(s))
    requires forall x :: x in more ==> x in PlanSpecs(s.group.value.plan)
    ensures Less(Lineup(s), gone + more) == Less(Specs(Kept(s)), gone) + Less(PlanSpecs(s.group.value.plan), more)
  {
    var kept, planned := Specs(Kept(s)), PlanSpecs(s.group.value.plan);
    assert forall i, k :: 0 <= i < |kept| && 0 <= k < |planned| ==> kept[i] != planned[k];
    LessAppend(kept, planned, gone + more);
    LessSame(kept, gone + more, gone);
    LessSame(planned, gone + more, more);
  }

  lemma KeptDistinct(cfg: Config, s: Sup)
    requires Inv(cfg, s) && GroupInv(cfg, s) && s.group.Some?
    ensures Distinct(Specs(Kept(s)))
  {
    SpecsDistinct(cfg, s);
    assert forall k :: 0 <= k < |Kept(s)| ==> Specs(Kept(s))[k] == Specs(s.children)[k];
  }

  lemma GoneAreListed(cfg: Config, s: Sup, ref: Ref)
    requires s.group.Some? && |s.group.value.pending| <= |s.children|
    ensures forall x :: x in SpecsAt(Kept(s), ref) ==> x in Specs(Kept(s))
    ensures forall x :: x in TemporarySiblings(cfg, s.group.value.plan) ==> x in PlanSpecs(s.group.value.plan)
    ensures forall x :: x in NotAwaited(s) ==> x in PlanSpecs(s.group.value.plan)
  {
    var plan := s.group.value.plan;
    forall x | x in SpecsAt(Kept(s), ref)
      ensures x in Specs(Kept(s))
    {
      var k :| 0 <= k < |Kept(s)| && Kept(s)[k].child.spec == x;
      assert Specs(Kept(s))[k] == x;
    }
    forall k | 0 <= k < |plan|
      ensures plan[k].child.spec in PlanSpecs(plan)
    {
      assert PlanSpecs(plan)[k] == plan[k].child.spec;
    }
  }

  lemma GroupEndLineup(cfg: Config, s: Sup, ref: Ref)
    requires Inv(cfg, s) && GroupInv(cfg, s) && s.group.Some? && Without(s.group.value.pending, ref) == []
    ensures var s' := GroupStop(cfg, s, ref);
            && s'.group.None?
            && Specs(s'.children) == Less(Lineup(s), SpecsAt(Kept(s), ref) + TemporarySiblings(cfg, s.group.value.plan))
  {
    var plan := s.group.value.plan;
    KeptDistinct(cfg, s);
    OthersLess(Kept(s), ref);
    GoneAreListed(cfg, s, ref);
    GroupStopEnds(cfg, s, ref);
    PlanLess(cfg, s);
    KeptAndPlanned(cfg, s, SpecsAt(Kept(s), ref), TemporarySiblings(cfg, plan));
    NewRowsSpecs(Restarted(cfg, plan), s.nextRef, s.nextOrder);
    SpecsAppend(Others(Kept(s), ref), NewRows(Restarted(cfg, plan), s.nextRef, s.nextOrder));
  }

  lemma GroupStopLineup(cfg: Config, s: Sup, ref: Ref, reason: Reason, now: Time)
    requires RunInv(cfg, s) && s.group.Some? && ref != 0
    ensures RunInv(cfg, GroupStop(cfg, s, ref))
    ensures Lineup(GroupStop(cfg, s, ref)) == Less(Lineup(s), Departs(cfg, s, Down(ref, reason, now)))
  {
    TerminateKeepsRunInv(cfg, s, ref, reason, now);
    var plan, gone := s.group.value.plan, SpecsAt(Kept(s), ref);
    KeptDistinct(cfg, s);
    OthersLess(Kept(s), ref);
    GoneAreListed(cfg, s, ref);
    if Without(s.group.value.pending, ref) == [] {
      GroupEndLineup(cfg, s, ref);
    } else {
      GroupStopWaits(cfg, s, ref);
      KeptAndPlanned(cfg, s, gone, {});
      LessOfNone(PlanSpecs(plan), {});
      assert gone + {} == gone;
    }
  }

  // A failure under `rest_for_one`: the failed child keeps its place between the earlier siblings,
  // which are left alone, and the later ones, which follow it in the plan.
  lemma FailureLineup(cfg: Config, s: Sup, i: nat, s': Sup, reason: Reason)
    requires cfg.strategy == RestForOne && s.group.None? && i < |s.children|
    requires Comes(cfg, PlanItem(s.children[i].ref, s.children[i].child, reason))
    requires AfterFailure(cfg, s, i, reason, s') && !s'.stopping
    ensures s'.group.Some? ==> |s'.group.value.pending| <= |s'.children|
    ensures Lineup(s') == Lineup(s)
  {
    var row, rest := s.children[i], s.children[..i] + s.children[i + 1..];
    var plan := PlanFor(row.ref, row.child, reason, rest[i..]);
    assert rest[i..] == s.children[i + 1..] && rest[..i] == s.children[..i];
    PlanForSpecs(row.ref, row.child, reason, rest[i..]);
    assert Specs(s.children) == Specs(rest[..i]) + PlanSpecs(plan);
    if i == |rest| {
      assert rest == rest[..i] && plan[1..] == [];
      assert Restarted(cfg, plan) == [plan[0]] == plan;
      NewRowsSpecs(plan, s.nextRef, s.nextOrder);
      SpecsAppend(rest, NewRows(plan, s.nextRef, s.nextOrder));
    }
  }

  // The limit decides whether a failure stops the supervisor.
  lemma FailureStops(cfg: Config, s: Sup, i: nat, reason: Reason, now: Time)
    requires RunInv(cfg, s) && s.group.None? && i < |s.children| && !OneByOne(cfg)
    requires IsRestarted(cfg, s.children[i].child, reason)
    requires Terminate(cfg, s, s.children[i].ref, reason, now).Done?
    ensures Terminate(cfg, s, s.children[i].ref, reason, now).value.stopping <==> !WithinLimit(cfg, s, now)
  {
    var row, m := s.children[i], PlanStart(cfg, i);
    var erased := s.(children := s.children[..i] + s.children[i + 1..]);
    assert WithinLimit(cfg, erased, now) == WithinLimit(cfg, s, now);
    assert !s.stopping;
    TerminateFailing(cfg, s, i, reason, now);
    FailureCanBegin(cfg, s, i, reason);
    RegisterThrows(cfg, erased, now);
    RegisterOutcome(cfg, erased, now);
    var (decided, accepted) := Register(cfg, erased, now).value;
    if accepted {
      GroupBegins(cfg, decided, row.ref, row.child, reason, m);
    }
  }

  lemma ErasedLess(cfg: Config, s: Sup, i: nat)
    requires Inv(cfg, s) && cfg.strategy != SimpleOneForOne && i < |s.children|
    ensures Specs(s.children[..i] + s.children[i + 1..]) == Less(Specs(s.children), {s.children[i].child.spec})
  {
    SpecsDistinct(cfg, s);
    LessAt(Specs(s.children), i);
    SpecsAppend(s.children[..i], s.children[i + 1..]);
    assert Specs(s.children[i + 1..]) == Specs(s.children)[i + 1..];
  }

  lemma TerminateLineup(cfg: Config, s: Sup, ref: Ref, reason: Reason, now: Time)
    requires RunInv(cfg, s) && cfg.strategy == RestForOne && s.group.None? && ref != 0
    requires Terminate(cfg, s, ref, reason, now).Done?
    ensures RunInv(cfg, Terminate(cfg, s, ref, reason, now).value)
    ensures Lineup(Terminate(cfg, s, ref, reason, now).value) == Less(Lineup(s), Departs(cfg, s, Down(ref, reason, now)))
  {
    var s' := Terminate(cfg, s, ref, reason, now).value;
    TerminateKeepsRunInv(cfg, s, ref, reason, now);
    var found := Find(s.children, ref);
    if found.None? {
      NoRestartOutcome(cfg, s, ref, reason, now);
      LessOfNone(Lineup(s), {});
    } else {
      var i := found.value;
      if IsRestarted(cfg, s.children[i].child, reason) {
        RestartLineup(cfg, s, i, reason, now);
      } else {
        NoRestartOutcome(cfg, s, ref, reason, now);
        ErasedLess(cfg, s, i);
      }
    }
  }

  lemma RestartLineup(cfg: Config, s: Sup, i: nat, reason: Reason, now: Time)
    requires RunInv(cfg, s) && cfg.strategy == RestForOne && s.group.None? && i < |s.children|
    requires IsRestarted(cfg, s.children[i].child, reason)
    requires Terminate(cfg, s, s.children[i].ref, reason, now).Done?
    ensures var s' := Terminate(cfg, s, s.children[i].ref, reason, now).value;
            && (s'.group.Some? ==> |s'.group.value.pending| <= |s'.children|)
            && Lineup(s') == Less(Lineup(s), if WithinLimit(cfg, s, now) then {} else {s.children[i].child.spec})
  {
    var s' := Terminate(cfg, s, s.children[i].ref, reason, now).value;
    FailureOutcome(cfg, s, i, reason, now);
    FailureStops(cfg, s, i, reason, now);
    if s'.stopping {
      ErasedLess(cfg, s, i);
      assert Specs(s'.children) == Specs(s.children[..i] + s.children[i + 1..]);
    } else {
      FailureLineup(cfg, s, i, s', reason);
      LessOfNone(Lineup(s), {});
    }
  }

  lemma StopLineup(cfg: Config, s: Sup)
    requires RunInv(cfg, s) && Stop(s).Done?
    ensures Stop(s).value.group.None? && Lineup(Stop(s).value) == Less(Lineup(s), Departs(cfg, s, StopSelf))
  {
    var s' := Stop(s).value;
    assert Specs(s'.children) == Specs(s.children);
    if s.group.None? {
      LessOfNone(Lineup(s), {});
    } else {
      ChildrenInGroup(cfg, s);
    }
  }

  // The children registered during a group, from the line-up.
  lemma ChildrenInGroup(cfg: Config, s: Sup)
    requires Inv(cfg, s) && GroupInv(cfg, s) && s.group.Some?
    ensures Specs(s.children) == Less(Lineup(s), NotAwaited(s))
  {
    var gone := NotAwaited(s);
    assert s.children == Kept(s) + Awaited(s);
    SpecsAppend(Kept(s), Awaited(s));
    GoneAreListed(cfg, s, 0);
    KeptAndPlanned(cfg, s, {}, gone);
    LessOfNone(Specs(Kept(s)), {});
    AwaitedIsPart(cfg, s);
    PartIsLess(Specs(Awaited(s)), PlanSpecs(s.group.value.plan), gone);
    assert {} + gone == gone;
  }

  lemma AwaitedIsPart(cfg: Config, s: Sup)
    requires Inv(cfg, s) && GroupInv(cfg, s) && s.group.Some?
    ensures var all := PlanSpecs(s.group.value.plan);
            Distinct(all) && Subsequence(Specs(Awaited(s)), all) && Complements(Specs(Awaited(s)), all, NotAwaited(s))
  {
    var plan, awaited := s.group.value.plan, Specs(Awaited(s));
    EmptySubsequence([plan[0].child.spec]);
    SubsequenceOfAppend([], [plan[0].child.spec], awaited, PlanSpecs(plan[1..]));
    assert PlanSpecs(plan) == [plan[0].child.spec] + PlanSpecs(plan[1..]);
    assert [] + awaited == awaited;
  }

  lemma {:induction false} OtherSpecsLess(rows: seq<Row>, spec: nat)
    ensures Specs(OtherSpecs(rows, spec)) == Less(Specs(rows), {spec})
    decreases |rows|
  {
    if rows != [] {
      var front, last := rows[..|rows| - 1], rows[|rows| - 1];
      OtherSpecsLess(front, spec);
      assert Specs(rows)[..|rows| - 1] == Specs(front);
      SpecsAppend(OtherSpecs(front, spec), if last.child.spec == spec then [] else [last]);
    }
  }

  lemma SameLineup(cfg: Config, s: Sup, s': Sup)
    requires RunInv(cfg, s) && RunInv(cfg, s') && s'.group == s.group
    requires Specs(s'.children) == Specs(s.children)
    ensures Lineup(s') == Less(Lineup(s), {})
  {
    LessOfNone(Lineup(s), {});
    if s.group.Some? {
      var n := |s.children| - |s.group.value.pending|;
      assert Specs(Kept(s)) == Specs(s.children)[..n] && Specs(Kept(s')) == Specs(s'.children)[..n];
    }
  }

  lemma StepLineup(cfg: Config, s: Sup, a: Action)
    requires RunInv(cfg, s) && cfg.strategy == RestForOne && Allowed(cfg, s, a) && Calm(s, a) && NoStarts(a)
    requires Step(cfg, s, a).Done?
    ensures RunInv(cfg, Step(cfg, s, a).value)
    ensures Lineup(Step(cfg, s, a).value) == Less(Lineup(s), Departs(cfg, s, a))
  {
    StepKeepsRunInv(cfg, s, a);
    var s' := Step(cfg, s, a).value;
    match a
    case Down(ref, reason, now) =>
      if ref == 0 {
        SameLineup(cfg, s, s');
      } else if s.group.Some? {
        GroupStopLineup(cfg, s, ref, reason, now);
      } else {
        TerminateLineup(cfg, s, ref, reason, now);
      }
    case StopSelf => StopLineup(cfg, s);
    case Delete(spec) =>
      assert Specs(HaltSpec(s.children, spec)) == Specs(s.children);
      OtherSpecsLess(HaltSpec(s.children, spec), spec);
    case _ => SameLineup(cfg, s, s');
  }

  // ----- whole runs

  // The specifications that left the line-up in the first `n` steps.
  ghost function Departed(cfg: Config, states: seq<Sup>, actions: seq<Action>, n: nat): set<nat>
    requires IsCalmRun(cfg, states, actions) && RunInv(cfg, states[0]) && n <= |actions|
  {
    if n == 0 then {}
    else
      RunKeepsRunInv(cfg, states, actions, n - 1);
      Departed(cfg, states, actions, n - 1) + Departs(cfg, states[n - 1], actions[n - 1])
  }

  // Under `rest_for_one`, any sequence of terminations, group restarts, stops and deletions keeps
  // the start order: what is lined up after any of it is, in the same order, exactly what was at
  // first less what has departed.
  lemma {:induction false} RestForOneKeepsStartOrder(cfg: Config, states: seq<Sup>, actions: seq<Action>, n: nat)
    requires cfg.strategy == RestForOne
    requires IsCalmRun(cfg, states, actions) && RunInv(cfg, states[0]) && n <= |actions|
    requires forall i :: 0 <= i < |actions| ==> NoStarts(actions[i])
    ensures RunInv(cfg, states[n])
    ensures Lineup(states[n]) == Less(Lineup(states[0]), Departed(cfg, states, actions, n))
    ensures Subsequence(Lineup(states[n]), Lineup(states[0]))
    decreases n
  {
    LessIsPart(Lineup(states[0]), Departed(cfg, states, actions, n));
    if n == 0 {
      LessOfNone(Lineup(states[0]), {});
    } else {
      RestForOneKeepsStartOrder(cfg, states, actions, n - 1);
      StepOf(cfg, states, actions, n - 1);
      StepLineup(cfg, states[n - 1], actions[n - 1]);
      LessTwice(Lineup(states[0]), Departed(cfg, states, actions, n - 1), Departs(cfg, states[n - 1], actions[n - 1]));
    }
  }

  // ----- start order under `one_for_all`

  // Moving `x` to the front keeps the order only of what stood behind it.
  lemma MovedToFront(front: seq<nat>, x: nat, back: seq<nat>, some: seq<nat>, others: seq<nat>)
    requires Distinct(front + [x] + back) && Subsequence(others, back)
    requires forall k :: 0 <= k < |some| ==> some[k] in front
    ensures Subsequence([x] + some + others, front + [x] + back) <==> some == []
  {
    if some == [] {
      EmptySubsequence(front);
      SubsequenceOfSelf([x]);
      SubsequenceOfAppend([x], [x], others, back);
      SubsequenceOfAppend([], front, [x] + others, [x] + back);
      assert [] + ([x] + others) == [x] + some + others;
      assert front + ([x] + back) == front + [x] + back;
    } else if Subsequence([x] + some + others, front + [x] + back) {
      NotMoved(front, x, back, some, others);
    }
  }

  // What comes after `x` in an order-preserving part did not stand in front of it.
  lemma NotMoved(front: seq<nat>, x: nat, back: seq<nat>, some: seq<nat>, others: seq<nat>)
    requires Distinct(front + [x] + back) && some != []
    requires Subsequence([x] + some + others, front + [x] + back)
    ensures some[0] !in front
  {
    var all, moved := front + [x] + back, [x] + some + others;
    var at: seq<nat> :| PickedBy(moved, all, at);
    assert moved[0] == x && moved[1] == some[0] && all[|front|] == x;
    assert at[0] == |front| && at[0] < at[1];
    forall p | 0 <= p < |front|
      ensures front[p] != some[0]
    {
      assert front[p] == all[p] != all[at[1]];
    }
  }

  ghost function AllTemporary(cfg: Config): set<nat> {
    set spec | 0 <= spec < |cfg.specs| && IsTemporary(cfg, spec)
  }

  lemma {:induction false} LessInList(xs: seq<nat>, gone: set<nat>, k: nat)
    requires k < |Less(xs, gone)|
    ensures Less(xs, gone)[k] in xs
    decreases |xs|
  {
    var front := xs[..|xs| - 1];
    if k < |Less(front, gone)| {
      LessInList(front, gone, k);
    }
  }

  lemma {:induction false} LessIsEmpty(xs: seq<nat>, gone: set<nat>)
    ensures Less(xs, gone) == [] <==> forall k :: 0 <= k < |xs| ==> xs[k] in gone
    decreases |xs|
  {
    if xs != [] {
      LessIsEmpty(xs[..|xs| - 1], gone);
      assert forall k :: 0 <= k < |xs| - 1 ==> xs[..|xs| - 1][k] == xs[k];
    }
  }

  // The specifications after a whole `one_for_all` restart: the failed child's first.
  lemma OneForAllSpecs(cfg: Config, s: Sup, i: nat, reason: Reason, now: Time, states: seq<Sup>, actions: seq<Action>)
    requires RunInv(cfg, s) && s.group.None? && i < |s.children| && cfg.strategy == OneForAll
    requires IsRestarted(cfg, s.children[i].child, reason)
    requires IsGroupRun(cfg, states, actions) && Terminate(cfg, s, s.children[i].ref, reason, now) == Done(states[0])
    ensures var front, back := Specs(s.children[..i]), Specs(s.children[i + 1..]);
            Specs(states[|actions|].children)
            == [s.children[i].child.spec] + Less(front, AllTemporary(cfg)) + Less(back, AllTemporary(cfg))
  {
    var row, rest := s.children[i], s.children[..i] + s.children[i + 1..];
    GroupRestartOutcome(cfg, s, i, reason, now, states, actions);
    assert rest[..0] == [] && rest[0..] == rest;
    SurvivorsOfNone(Signals(actions));
    NewSpecs(cfg, row, reason, s.children[..i], s.children[i + 1..], states[|actions| - 1].nextRef, states[0].nextOrder);
  }

  lemma NewSpecs(cfg: Config, row: Row, reason: Reason, front: seq<Row>, back: seq<Row>, ref: Ref, order: nat)
    requires forall k :: 0 <= k < |front + back| ==> Items(front + back)[k].child.spec < |cfg.specs|
    ensures var items := [PlanItem(row.ref, row.child, reason)] + NotTemporary(cfg, Items(front + back));
            Specs([] + NewRows(items, ref, order))
            == [row.child.spec] + Less(Specs(front), AllTemporary(cfg)) + Less(Specs(back), AllTemporary(cfg))
  {
    var siblings, gone := Items(front + back), AllTemporary(cfg);
    var items := [PlanItem(row.ref, row.child, reason)] + NotTemporary(cfg, siblings);
    calc {
      Specs([] + NewRows(items, ref, order));
      { assert [] + NewRows(items, ref, order) == NewRows(items, ref, order); NewRowsSpecs(items, ref, order); }
      PlanSpecs(items);
      [row.child.spec] + PlanSpecs(NotTemporary(cfg, siblings));
      { RestartedSiblings(cfg, siblings); RestartedLess(cfg, siblings, gone); }
      [row.child.spec] + Less(PlanSpecs(siblings), gone);
      { assert PlanSpecs(siblings) == Specs(front) + Specs(back); LessAppend(Specs(front), Specs(back), gone); }
      [row.child.spec] + (Less(Specs(front), gone) + Less(Specs(back), gone));
      [row.child.spec] + Less(Specs(front), gone) + Less(Specs(back), gone);
    }
  }

  lemma {:induction false} SurvivorsOfNone(refs: seq<Ref>)
    ensures Survivors([], refs) == []
    decreases |refs|
  {
    if refs != [] {
      SurvivorsOfNone(refs[..|refs| - 1]);
    }
  }

  // A whole `one_for_all` restart keeps the start order exactly when every child in front of the
  // failed one is temporary.
  lemma OneForAllKeepsStartOrder(cfg: Config, s: Sup, i: nat, reason: Reason, now: Time, states: seq<Sup>, actions: seq<Action>)
    requires RunInv(cfg, s) && s.group.None? && i < |s.children| && cfg.strategy == OneForAll
    requires IsRestarted(cfg, s.children[i].child, reason)
    requires IsGroupRun(cfg, states, actions) && Terminate(cfg, s, s.children[i].ref, reason, now) == Done(states[0])
    ensures Subsequence(Specs(states[|actions|].children), Specs(s.children))
       <==> forall k :: 0 <= k < i ==> IsTemporary(cfg, s.children[k].child.spec)
  {
    var front, back := Specs(s.children[..i]), Specs(s.children[i + 1..]);
    OneForAllSpecs(cfg, s, i, reason, now, states, actions);
    SplitSpecs(s.children, i);
    SpecsDistinct(cfg, s);
    FailedFirst(front, s.children[i].child.spec, back, AllTemporary(cfg));
    assert forall k :: 0 <= k < i ==> front[k] == s.children[k].child.spec && front[k] < |cfg.specs|;
  }

  lemma SplitSpecs(rows: seq<Row>, i: nat)
    requires i < |rows|
    ensures Specs(rows) == Specs(rows[..i]) + [rows[i].child.spec] + Specs(rows[i + 1..])
  {
  }

  // The failed one first, then the others less those gone: in order only if all in front are gone.
  lemma FailedFirst(front: seq<nat>, x: nat, back: seq<nat>, gone: set<nat>)
    requires Distinct(front + [x] + back)
    ensures Subsequence([x] + Less(front, gone) + Less(back, gone), front + [x] + back)
       <==> forall k :: 0 <= k < |front| ==> front[k] in gone
  {
    forall k | 0 <= k < |Less(front, gone)|
      ensures Less(front, gone)[k] in front
    {
      LessInList(front, gone, k);
    }
    LessIsPart(back, gone);
    MovedToFront(front, x, back, Less(front, gone), Less(back, gone));
    LessIsEmpty(front, gone);
  }

  // ----- which siblings a group restart leaves registered

  lemma {:induction false} LessHas(xs: seq<nat>, gone: set<nat>, x: nat)
    ensures x in Less(xs, gone) <==> x in xs && x !in gone
    decreases |xs|
  {
    if xs != [] {
      LessHas(xs[..|xs| - 1], gone, x);
      assert xs == xs[..|xs| - 1] + [xs[|xs| - 1]];
    }
  }

  lemma {:induction false} OthersHave(rows: seq<Row>, ref: Ref, row: Row)
    ensures row in Others(rows, ref) <==> row in rows && row.ref != ref
    decreases |rows|
  {
    if rows != [] {
      OthersHave(rows[..|rows| - 1], ref, row);
      assert rows == rows[..|rows| - 1] + [rows[|rows| - 1]];
    }
  }

  lemma {:induction false} SurvivorsHave(rows: seq<Row>, refs: seq<Ref>, row: Row)
    ensures row in Survivors(rows, refs) <==> row in rows && row.ref !in refs
    decreases |refs|
  {
    if refs != [] {
      var front, last := refs[..|refs| - 1], refs[|refs| - 1];
      SurvivorsHave(rows, front, row);
      OthersHave(Survivors(rows, front), last, row);
      assert refs == front + [last];
    }
  }

  // Of rows with distinct specifications, the one at `k` survives if no signal was about it.
  lemma SurvivorSpecs(rows: seq<Row>, refs: seq<Ref>, k: nat)
    requires Distinct(Specs(rows)) && k < |rows|
    ensures rows[k].child.spec in Specs(Survivors(rows, refs)) <==> rows[k].ref !in refs
  {
    var left := Survivors(rows, refs);
    SurvivorsHave(rows, refs, rows[k]);
    if rows[k] in left {
      var j :| 0 <= j < |left| && left[j] == rows[k];
      assert Specs(left)[j] == rows[k].child.spec;
    }
    if j: nat :| j < |left| && Specs(left)[j] == rows[k].child.spec {
      SurvivorsHave(rows, refs, left[j]);
      var l :| 0 <= l < |rows| && rows[l] == left[j];
      assert Specs(rows)[l] == Specs(rows)[k];
    }
  }

  lemma SurvivorsComeFrom(rows: seq<Row>, refs: seq<Ref>, spec: nat)
    ensures spec in Specs(Survivors(rows, refs)) ==> spec in Specs(rows)
  {
    var left := Survivors(rows, refs);
    if j: nat :| j < |left| && Specs(left)[j] == spec {
      SurvivorsHave(rows, refs, left[j]);
      var l :| 0 <= l < |rows| && rows[l] == left[j];
      assert Specs(rows)[l] == spec;
    }
  }

  // The specifications of the new children: the failed one's, and those of its planned siblings that
  // are not temporary.
  lemma NewSpecsHave(cfg: Config, row: Row, reason: Reason, siblings: seq<Row>, ref: Ref, order: nat, spec: nat)
    requires forall k :: 0 <= k < |siblings| ==> siblings[k].child.spec < |cfg.specs|
    ensures spec in Specs(NewRows([PlanItem(row.ref, row.child, reason)] + NotTemporary(cfg, Items(siblings)), ref, order))
       <==> spec == row.child.spec || (spec in Specs(siblings) && !IsTemporary(cfg, spec))
  {
    var planned := NotTemporary(cfg, Items(siblings));
    var items := [PlanItem(row.ref, row.child, reason)] + planned;
    NewRowsSpecs(items, ref, order);
    RestartedSiblings(cfg, Items(siblings));
    RestartedLess(cfg, Items(siblings), AllTemporary(cfg));
    assert PlanSpecs(items) == [row.child.spec] + PlanSpecs(planned) && PlanSpecs(Items(siblings)) == Specs(siblings);
    LessHas(Specs(siblings), AllTemporary(cfg), spec);
  }

  // A failed child aside, the rows in front of the plan and those planned.
  lemma SiblingPlace(cfg: Config, s: Sup, i: nat, k: nat) returns (at: nat)
    requires Inv(cfg, s) && cfg.strategy != SimpleOneForOne && i < |s.children| && k < |s.children| && k != i
    requires cfg.strategy == OneForAll || cfg.strategy == RestForOne
    ensures var rest := s.children[..i] + s.children[i + 1..];
            && at < |rest| && rest[at] == s.children[k] && PlanStart(cfg, i) <= |rest| && Distinct(Specs(rest))
            && (Planned(cfg, s.children[i].child, s.children[k]) <==> PlanStart(cfg, i) <= at)
            && s.children[k].child.spec != s.children[i].child.spec
  {
    at := if k < i then k else k - 1;
  }

  // After a whole group restart a child with the specification of sibling `k` is registered if and
  // only if the sibling was planned and is not temporary, be it suppressed or not; or it was not
  // planned, and no signal has been about it.
  lemma SiblingComesBack(cfg: Config, s: Sup, i: nat, reason: Reason, now: Time, states: seq<Sup>, actions: seq<Action>, k: nat)
    requires RunInv(cfg, s) && s.group.None? && i < |s.children| && (cfg.strategy == OneForAll || cfg.strategy == RestForOne)
    requires IsRestarted(cfg, s.children[i].child, reason)
    requires IsGroupRun(cfg, states, actions) && Terminate(cfg, s, s.children[i].ref, reason, now) == Done(states[0])
    requires k < |s.children| && k != i
    ensures s.children[k].child.spec in Specs(states[|actions|].children)
       <==> if Planned(cfg, s.children[i].child, s.children[k]) then !IsTemporary(cfg, s.children[k].child.spec)
            else s.children[k].ref !in Signals(actions)
  {
    var row, m, spec := s.children[i], PlanStart(cfg, i), s.children[k].child.spec;
    var rest := s.children[..i] + s.children[i + 1..];
    var at := SiblingPlace(cfg, s, i, k);
    GroupRestartOutcome(cfg, s, i, reason, now, states, actions);
    RestKnown(cfg, s, i);
    var left := Survivors(rest[..m], Signals(actions));
    var new_ := NewRows([PlanItem(row.ref, row.child, reason)] + NotTemporary(cfg, Items(rest[m..])),
                        states[|actions| - 1].nextRef, states[0].nextOrder);
    SpecsAppend(left, new_);
    NewSpecsHave(cfg, row, reason, rest[m..], states[|actions| - 1].nextRef, states[0].nextOrder, spec);
    PlaceOfSpec(rest, m, at);
    if at < m {
      SurvivorSpecs(rest[..m], Signals(actions), at);
    } else {
      SurvivorsComeFrom(rest[..m], Signals(actions), spec);
    }
  }

  lemma PlaceOfSpec(rows: seq<Row>, m: nat, at: nat)
    requires Distinct(Specs(rows)) && m <= |rows| && at < |rows|
    ensures Distinct(Specs(rows[..m]))
    ensures rows[at].child.spec in Specs(rows[..m]) <==> at < m
    ensures rows[at].child.spec in Specs(rows[m..]) <==> m <= at
  {
    assert Specs(rows[..m]) == Specs(rows)[..m] && Specs(rows[m..]) == Specs(rows)[m..];
    if at < m { assert Specs(rows[..m])[at] == rows[at].child.spec; } else { assert Specs(rows[m..])[at - m] == rows[at].child.spec; }
  }
}
