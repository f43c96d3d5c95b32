/**
  The supervisor object: its methods, which update its fields in place, against the functions of
  `Supervisors` on its state. Each loop of a method is proved to do what one of those functions does
  to all children, whether it gets to its end or stops at a child that has gone.
*/
module SupervisorObjects {
  import opened ActorControl
  import opened Collections
  import opened Supervisors

  // A method that threw or left this state did what the function says.
  ghost predicate Matches(outcome: Outcome<Sup>, threw: bool, s: Sup) {
    outcome == if threw then Threw(s) else Done(s)
  }

  class Supervisor {
    const cfg: Config
    var children: seq<Row>
    var times: seq<Time>
    var group: Option<Group>
    var nextOrder: nat
    var stopping: bool
    var selfStops: nat
    // What the scheduler would answer.
    var live: set<Ref>
    var nextRef: Ref

    ghost var decisions: seq<Decision>

    ghost function View(): Sup
      reads this
    {
      Sup(children, times, group, nextOrder, stopping, decisions, selfStops, live, nextRef)
    }

    // No reference is registered twice.
    ghost predicate Keyed()
      reads this`children
    {
      RefsRise(children)
    }

    constructor (cfg: Config, live: set<Ref>, nextRef: Ref)
      requires 0 < nextRef
      ensures Inv(cfg, View()) && Initial(View())
      ensures this.cfg == cfg && this.live == live && this.nextRef == nextRef && nextOrder == 1
    {
      this.cfg := cfg;
      children, times, group, nextOrder, stopping, selfStops := [], [], None, 1, false, 0;
      this.live, this.nextRef := live, nextRef;
      decisions := [];
    }

    // ----- starting

    method FindRunningChildForSpec(spec: nat) returns (found: Option<Ref>)
      ensures match FindSpec(children, spec)
              case None => found == None
              case Some(i) => found == Some(children[i].ref)
    {
      var i := 0;
      while i < |children|
        invariant i <= |children|
        invariant forall k :: 0 <= k < i ==> children[k].child.spec != spec
      {
        if children[i].child.spec == spec {
          return Some(children[i].ref);
        }
        i := i + 1;
      }
      found := None;
    }

    // The reference is that of the child that runs the specification now: the one there was, or a
    // new one.
    method StartChildWithArgs(spec: nat, args: Args) returns (ref: Ref)
      modifies this
      ensures View() == StartChild(cfg, old(View()), spec, args)
      ensures ref == if cfg.strategy != SimpleOneForOne && FindSpec(old(children), spec).Some?
                     then old(children)[FindSpec(old(children), spec).value].ref else old(nextRef)
    {
      if cfg.strategy != SimpleOneForOne {
        var existing := FindRunningChildForSpec(spec);
        if existing.Some? {
          return existing.value;
        }
      }
      ref := nextRef;
      live, nextRef := live + {ref}, nextRef + 1;
      var entry := Child(spec, nextOrder, args, false, false);
      nextOrder := nextOrder + 1;
      children := Put(children, Row(ref, entry));
    }

    method RespawnWithEntry(child: Child)
      modifies this
      ensures View() == Respawn(cfg, old(View()), child)
    {
      var _ := StartChildWithArgs(child.spec, child.args);
    }

    // ----- stopping

    // Fails if the scheduler no longer has the child; by then it is already marked.
    method RequestStop(ref: Ref) returns (threw: bool)
      requires Find(children, ref).Some?
      modifies this`children
      ensures var i := Find(old(children), ref).value;
              && threw == !CanStop(View(), old(children)[i])
              && children == old(children)[i := old(children)[i].(child := old(children)[i].child.(stopping := true))]
    {
      var i := Find(children, ref).value;
      if children[i].child.stopping {
        return false;
      }
      children := children[i := children[i].(child := children[i].child.(stopping := true))];
      threw := ref !in live;
    }

    // Sets or clears suppression in row `i`, then asks its child to stop.
    method Halt(i: nat, suppress: bool) returns (threw: bool)
      requires Keyed() && i < |children|
      modifies this`children
      ensures threw == !CanStop(View(), old(children)[i])
      ensures children == old(children)[i := Halted(old(children)[i], suppress)]
    {
      var row := children[i];
      children := children[i := row.(child := row.child.(suppress := suppress))];
      FindAt(children, i);
      threw := RequestStop(row.ref);
    }

    // Fails at the first child that has gone; by then those before it, and it, are marked.
    method StopAllChildren() returns (threw: bool)
      requires Keyed()
      modifies this`children
      ensures threw <==> exists k :: 0 <= k < |old(children)| && !CanStop(old(View()), old(children)[k])
      ensures View() == if threw then LeftAsking(old(View()), AllAsked(old(children)), true)
                        else old(View()).(children := HaltAll(old(children)))
    {
      ghost var before := View();
      var i := 0;
      while i < |children|
        invariant i <= |children| == |before.children|
        invariant forall k :: 0 <= k < i ==> CanStop(before, before.children[k])
        invariant forall k :: 0 <= k < i ==> children[k] == Halted(before.children[k], true)
        invariant forall k :: i <= k < |children| ==> children[k] == before.children[k]
      {
        SameRefsRise(before.children, children);
        threw := Halt(i, true);
        if threw {
          LeftAt(before, AllAsked(before.children), children, i, true);
          return true;
        }
        i := i + 1;
      }
      threw := false;
      assert children == HaltAll(before.children);
    }

    // `stop` of the supervisor itself.
    method Stop() returns (threw: bool)
      requires Keyed()
      modifies this
      ensures Matches(Supervisors.Stop(old(View())), threw, View())
    {
      if !stopping {
        stopping := true;
        LeftSame(old(View()), View(), AllAsked(children), true);
        threw := StopAllChildren();
        if threw {
          return;
        }
        group := None;
      }
      selfStops := selfStops + 1;
      threw := false;
    }

    // ----- restart intensity

    method ForgetOldRestarts(now: Time)
      modifies this`times
      ensures times == Recent(old(times), now, cfg.within)
    {
      var kept: seq<Time> := [];
      var i := 0;
      while i < |times|
        invariant i <= |times| && kept == Recent(times[..i], now, cfg.within)
      {
        assert times[..i + 1][..i] == times[..i];
        if !(now - times[i] > cfg.within) {
          kept := kept + [times[i]];
        }
        i := i + 1;
      }
      assert times[..i] == times;
      times := kept;
    }

    method RegisterRestart(now: Time) returns (threw: bool, accepted: bool)
      requires Keyed()
      modifies this
      ensures Register(cfg, old(View()), now) == if threw then Threw((View(), accepted)) else Done((View(), accepted))
    {
      if cfg.maxRestarts == 0 {
        decisions := decisions + [Decision(now, false)];
        threw := Stop();
        return threw, false;
      }
      ForgetOldRestarts(now);
      times := times + [now];
      decisions := decisions + [Decision(now, |times| <= cfg.maxRestarts)];
      if |times| > cfg.maxRestarts {
        threw := Stop();
        return threw, false;
      }
      return false, true;
    }

    // ----- termination signals

    method HandleSignal(from: Ref, reason: Reason, now: Time) returns (threw: bool)
      requires Inv(cfg, View()) && Allowed(cfg, View(), Down(from, reason, now))
      modifies this
      ensures Matches(Step(cfg, old(View()), Down(from, reason, now)), threw, View())
      ensures Inv(cfg, View())
    {
      AnyStepKeepsInv(cfg, View(), Down(from, reason, now));
      if from == 0 {
        return false;
      }
      threw := HandleTermination(from, reason, now);
    }

    method HandleTermination(ref: Ref, reason: Reason, now: Time) returns (threw: bool)
      requires Inv(cfg, View())
      modifies this
      ensures Matches(Terminate(cfg, old(View()), ref, reason, now), threw, View())
    {
      if group.Some? {
        HandleRestartGroupStop(ref);
        return false;
      }
      threw := HandleChildTermination(ref, reason, now);
    }

    // Outside a group.
    method HandleChildTermination(ref: Ref, reason: Reason, now: Time) returns (threw: bool)
      requires Inv(cfg, View()) && group.None?
      modifies this
      ensures Matches(Terminate(cfg, old(View()), ref, reason, now), threw, View())
    {
      var found := Find(children, ref);
      if found.None? {
        return false;
      }
      var child := children[found.value].child;
      ErasedKeyed(cfg, View(), ref, now);
      ghost var erased := View().(children := children[..found.value] + children[found.value + 1..]);
      children := children[..found.value] + children[found.value + 1..];
      assert View() == erased;
      if child.suppress || !ShouldRestart(PolicyOf(cfg, child.spec), reason) {
        return false;
      }
      threw := RestartFailed(ref, child, reason, now);
    }

    // The rest of it: the child is off the map and is to be restarted.
    method RestartFailed(ref: Ref, child: Child, reason: Reason, now: Time) returns (threw: bool)
      requires Keyed() && SpecsKnown(cfg, View()) && child.spec < |cfg.specs| && Find(children, ref).None?
      modifies this
      ensures Matches(Supervisors.RestartFailed(cfg, old(View()), ref, child, reason, now), threw, View())
    {
      RegisterKnown(cfg, View(), now);
      var accepted;
      threw, accepted := RegisterRestart(now);
      if threw || !accepted {
        return;
      }
      if cfg.strategy == OneForOne || cfg.strategy == SimpleOneForOne {
        RespawnWithEntry(child);
        return false;
      }
      threw := BeginRestartGroup(ref, child, reason);
    }

    // ----- restart groups

    method HandleRestartGroupStop(ref: Ref)
      requires SpecsKnown(cfg, View()) && group.Some?
      modifies this
      ensures View() == GroupStop(cfg, old(View()), ref)
    {
      var found := Find(children, ref);
      if found.Some? {
        children := children[..found.value] + children[found.value + 1..];
      }
      var pending := Without(group.value.pending, ref);
      group := Some(group.value.(pending := pending));
      if pending == [] {
        FinalizeRestartGroup();
      }
    }

    method FinalizeRestartGroup()
      requires SpecsKnown(cfg, View()) && group.Some?
      modifies this
      ensures View() == Finalize(cfg, old(View()))
    {
      var plan := group.value.plan;
      group := None;
      ghost var start := View();
      var i := 0;
      assert plan[0..] == plan;
      while i < |plan|
        invariant i <= |plan|
        invariant forall k :: 0 <= k < |plan| ==> plan[k].child.spec < |cfg.specs|
        invariant RespawnAll(cfg, View(), plan[i..]) == RespawnAll(cfg, start, plan)
      {
        assert plan[i..][0] == plan[i] && plan[i..][1..] == plan[i + 1..];
        if ShouldRestart(PolicyOf(cfg, plan[i].child.spec), plan[i].reason) {
          RespawnWithEntry(plan[i].child);
        }
        i := i + 1;
      }
    }

    // The failed child first, then its siblings in map order, less those that started before it
    // under `rest_for_one`.
    method MakePlan(ref: Ref, failed: Child, reason: Reason) returns (plan: seq<PlanItem>)
      ensures plan == [PlanItem(ref, failed, reason)] + PlannedItems(cfg, failed, children)
    {
      var all: seq<PlanItem> := [PlanItem(ref, failed, reason)];
      var i := 0;
      while i < |children|
        invariant i <= |children|
        invariant |all| == i + 1 && all[0] == PlanItem(ref, failed, reason)
        invariant forall k :: 0 <= k < i ==> all[k + 1] == PlanItem(children[k].ref, children[k].child, Stopped)
      {
        all := all + [PlanItem(children[i].ref, children[i].child, Stopped)];
        i := i + 1;
      }
      plan := [all[0]];
      i := 1;
      while i < |all|
        invariant 1 <= i <= |all|
        invariant plan == [PlanItem(ref, failed, reason)] + PlannedItems(cfg, failed, children[..i - 1])
      {
        assert children[..i][..i - 1] == children[..i - 1];
        assert all[i - 1 + 1].child == children[i - 1].child;
        if !(cfg.strategy == RestForOne && all[i].child.order <= failed.order) {
          plan := plan + [all[i]];
        }
        i := i + 1;
      }
      assert children[..i - 1] == children;
    }

    method BeginRestartGroup(ref: Ref, failed: Child, reason: Reason) returns (threw: bool)
      requires Keyed() && SpecsKnown(cfg, View()) && failed.spec < |cfg.specs| && Find(children, ref).None?
      modifies this
      ensures Matches(BeginGroup(cfg, old(View()), ref, failed, reason), threw, View())
    {
      var plan := MakePlan(ref, failed, reason);
      PlannedItemsKnown(cfg, failed, children);
      group := Some(Group(plan, []));
      LeftBeginningSame(cfg, old(View()), View(), failed, plan);
      threw := StopPlanned(ref, failed, reason);
      if threw {
        return;
      }
      if group.value.pending == [] {
        FinalizeRestartGroup();
      }
    }

    // If it is registered, asks this child to stop and waits for it.
    method StopAndAwait(ref: Ref) returns (threw: bool)
      requires Keyed() && group.Some?
      modifies this`children, this`group
      ensures match Find(old(children), ref)
              case None => !threw && children == old(children) && group == old(group)
              case Some(k) =>
                && threw == !CanStop(old(View()), old(children)[k])
                && children == old(children)[k := Halted(old(children)[k], false)]
                && group == Some(old(group.value).(pending := old(group.value.pending) + [ref]))
    {
      threw := false;
      var found := Find(children, ref);
      if found.Some? {
        group := Some(group.value.(pending := group.value.pending + [ref]));
        threw := Halt(found.value, false);
      }
    }

    // One turn of the loop that stops the planned siblings: the `n`-th of them, after `n` others.
    method StopNext(failed: Child, ghost before: Sup, n: nat, ghost r: nat) returns (threw: bool, ghost r': nat)
      requires Keyed() && group.Some? && RefsRise(before.children) && View() == before.(children := children, group := group)
      requires Progress(cfg, failed, before, View(), n, r) && n < |PlannedItems(cfg, failed, before.children)|
      requires n + 1 < |group.value.plan| && group.value.plan[n + 1] == PlannedItems(cfg, failed, before.children)[n]
      modifies this`children, this`group
      ensures Keyed() && group.Some? && group.value.plan == old(group.value.plan)
      ensures threw ==> PlannedGone(cfg, failed, before) && LeftSo(cfg, before, failed, View())
      ensures !threw ==> Progress(cfg, failed, before, View(), n + 1, r')
    {
      ghost var now := View();
      threw := StopAndAwait(group.value.plan[n + 1].ref);
      r' := OnePlanned(cfg, failed, before, now, View(), n, r);
      SameRefsRise(now.children, children);
    }

    // Asks every planned sibling to stop and waits for it.
    method StopPlanned(ref: Ref, failed: Child, reason: Reason) returns (threw: bool)
      requires Keyed() && Find(children, ref).None?
      requires group == Some(Group([PlanItem(ref, failed, reason)] + PlannedItems(cfg, failed, children), []))
      modifies this`children, this`group
      ensures threw <==> PlannedGone(cfg, failed, old(View()))
      ensures threw ==> View() == LeftBeginning(cfg, old(View()), failed, old(group.value.plan))
      ensures !threw ==> children == HaltPlanned(cfg, failed, old(children))
      ensures !threw ==> group == Some(Group(old(group.value.plan), PlannedRefs(cfg, failed, old(children))))
    {
      ghost var before := View();
      var plan := group.value.plan;
      threw := StopAndAwait(plan[0].ref);
      ghost var r := Unstarted(cfg, failed, before);
      var i := 1;
      while i < |plan|
        invariant 1 <= i <= |plan|
        invariant View() == before.(children := children, group := group)
        invariant Keyed() && group.Some? && group.value.plan == plan
        invariant Progress(cfg, failed, before, View(), i - 1, r)
      {
        threw, r := StopNext(failed, before, i - 1, r);
        if threw {
          return;
        }
        i := i + 1;
      }
      threw := false;
      AllPlanned(cfg, failed, before, View(), r);
    }

    // ----- administration

    method StopAndSuppress(spec: nat) returns (threw: bool)
      requires Keyed()
      modifies this`children
      ensures Matches(StopChild(old(View()), spec), threw, View())
    {
      ghost var before := View();
      var i := 0;
      while i < |children|
        invariant i <= |children| == |before.children|
        invariant forall k :: 0 <= k < i && before.children[k].child.spec == spec ==> CanStop(before, before.children[k])
        invariant forall k :: 0 <= k < i ==>
                    children[k] == if before.children[k].child.spec == spec then Halted(before.children[k], true) else before.children[k]
        invariant forall k :: i <= k < |children| ==> children[k] == before.children[k]
      {
        if children[i].child.spec == spec {
          SameRefsRise(before.children, children);
          threw := Halt(i, true);
          if threw {
            LeftAt(before, SpecAsked(before.children, spec), children, i, true);
            return true;
          }
        }
        i := i + 1;
      }
      threw := false;
      assert children == HaltSpec(before.children, spec);
    }

    method DeleteChildren(spec: nat) returns (threw: bool)
      requires Keyed()
      modifies this`children
      ensures Matches(DeleteChild(old(View()), spec), threw, View())
    {
      threw := StopAndSuppress(spec);
      if threw {
        return;
      }
      var kept: seq<Row> := [];
      var i := 0;
      while i < |children|
        invariant i <= |children| && kept == OtherSpecs(children[..i], spec)
      {
        assert children[..i + 1][..i] == children[..i];
        if children[i].child.spec != spec {
          kept := kept + [children[i]];
        }
        i := i + 1;
      }
      assert children[..i] == children;
      children := kept;
    }

    method RestartChildEntry(spec: nat, ref: Ref) returns (threw: bool)
      requires Find(children, ref).Some?
      modifies this
      ensures Matches(RestartOne(cfg, old(View()), spec, ref), threw, View())
    {
      var i := Find(children, ref).value;
      var row := children[i];
      if !row.child.stopping {
        children := children[i := row.(child := row.child.(suppress := false))];
        SameRefsFind(old(children), children, ref);
        threw := RequestStop(ref);
        assert children == old(children)[i := Halted(row, false)];
        return;
      }
      var _ := StartChildWithArgs(spec, row.child.args);
      threw := false;
    }

    method RestartChildren(spec: nat) returns (threw: bool)
      modifies this
      ensures Matches(RestartChild(cfg, old(View()), spec), threw, View())
    {
      ghost var rows := children;
      var refs: seq<Ref> := [];
      var i := 0;
      while i < |children|
        invariant i <= |children| == |rows|
        invariant View() == old(View()).(children := children)
        invariant refs == RefsOf(rows[..i], spec)
        invariant forall k :: 0 <= k < i ==>
                    children[k] == if rows[k].child.spec == spec then rows[k].(child := rows[k].child.(suppress := false)) else rows[k]
        invariant forall k :: i <= k < |rows| ==> children[k] == rows[k]
      {
        assert rows[..i + 1][..i] == rows[..i];
        if children[i].child.spec == spec {
          children := children[i := children[i].(child := children[i].child.(suppress := false))];
          refs := refs + [children[i].ref];
        }
        i := i + 1;
      }
      assert rows[..i] == rows;
      assert children == Unsuppress(rows, spec);
      ghost var unsuppressed := View();
      assert unsuppressed == old(View()).(children := Unsuppress(rows, spec));
      threw := RestartListed(spec, refs);
    }

    method RestartListed(spec: nat, refs: seq<Ref>) returns (threw: bool)
      modifies this
      ensures Matches(RestartEach(cfg, old(View()), spec, refs), threw, View())
    {
      var i := 0;
      assert refs[0..] == refs;
      while i < |refs|
        invariant i <= |refs|
        invariant RestartEach(cfg, View(), spec, refs[i..]) == RestartEach(cfg, old(View()), spec, refs)
      {
        assert refs[i..][0] == refs[i] && refs[i..][1..] == refs[i + 1..];
        // Asking the map for a reference it does not have fails too.
        if Find(children, refs[i]).None? {
          return true;
        }
        threw := RestartChildEntry(spec, refs[i]);
        if threw {
          return;
        }
        i := i + 1;
      }
      threw := false;
    }
  }

  // ----- finding rows whose flags have changed

  ghost predicate SameRefs(rows: seq<Row>, others: seq<Row>) {
    |rows| == |others| && forall k :: 0 <= k < |rows| ==> others[k].ref == rows[k].ref
  }

  lemma SameRefsRise(rows: seq<Row>, others: seq<Row>)
    requires RefsRise(rows) && SameRefs(rows, others)
    ensures RefsRise(others)
  {
  }

  lemma {:induction false} SameRefsFind(rows: seq<Row>, others: seq<Row>, ref: Ref)
    requires SameRefs(rows, others)
    ensures Find(rows, ref) == Find(others, ref)
    decreases |rows|
  {
    if rows != [] {
      SameRefsFind(rows[..|rows| - 1], others[..|rows| - 1], ref);
    }
  }

  lemma ErasedKeyed(cfg: Config, s: Sup, ref: Ref, now: Time)
    requires Inv(cfg, s) && s.group.None? && Find(s.children, ref).Some?
    ensures var i := Find(s.children, ref).value;
            var rest := s.children[..i] + s.children[i + 1..];
            RefsRise(rest) && Find(rest, ref).None? && SpecsKnown(cfg, s.(children := rest))
  {
    ErasedRises(s.children, Find(s.children, ref).value);
    ErasedSpecs(cfg, s, Find(s.children, ref).value);
  }

  lemma ErasedRises(rows: seq<Row>, i: nat)
    requires RefsRise(rows) && i < |rows|
    ensures var rest := rows[..i] + rows[i + 1..]; RefsRise(rest) && Find(rest, rows[i].ref).None?
  {
  }

  lemma ErasedSpecs(cfg: Config, s: Sup, i: nat)
    requires SpecsKnown(cfg, s) && i < |s.children|
    ensures SpecsKnown(cfg, s.(children := s.children[..i] + s.children[i + 1..]))
  {
  }

  // ----- what exceptions leave

  lemma FirstGoneIs(s: Sup, asked: seq<bool>, i: nat)
    requires |asked| == |s.children| && i < |s.children| && asked[i] && !CanStop(s, s.children[i])
    requires forall j :: 0 <= j < i && asked[j] ==> CanStop(s, s.children[j])
    ensures FirstGone(s, asked, 0) == Some(i)
  {
  }

  // A loop that has asked the children up to row `i`, which has gone.
  lemma LeftAt(s: Sup, asked: seq<bool>, rows: seq<Row>, i: nat, suppress: bool)
    requires |asked| == |s.children| == |rows| && i < |s.children| && asked[i] && !CanStop(s, s.children[i])
    requires forall j :: 0 <= j < i && asked[j] ==> CanStop(s, s.children[j])
    requires forall j :: 0 <= j < |rows| ==>
               rows[j] == if j <= i && asked[j] then Halted(s.children[j], suppress) else s.children[j]
    ensures LeftAsking(s, asked, suppress) == s.(children := rows)
  {
    FirstGoneIs(s, asked, i);
    assert rows == HaltUpTo(s.children, asked, i, suppress);
  }

  // Which child has gone depends on the children and the registry only.
  lemma FirstGoneSame(s: Sup, s': Sup, asked: seq<bool>)
    requires s'.children == s.children && s'.live == s.live && |asked| == |s.children|
    ensures FirstGone(s', asked, 0) == FirstGone(s, asked, 0)
  {
    assert forall k :: 0 <= k < |s.children| ==> CanStop(s, s.children[k]) == CanStop(s', s.children[k]);
    if FirstGone(s, asked, 0).Some? {
      FirstGoneIs(s', asked, FirstGone(s, asked, 0).value);
    }
  }

  lemma LeftSame(s: Sup, s': Sup, asked: seq<bool>, suppress: bool)
    requires s'.children == s.children && s'.live == s.live && |asked| == |s.children|
    ensures LeftAsking(s', asked, suppress).children == LeftAsking(s, asked, suppress).children
    ensures LeftAsking(s', asked, suppress) == s'.(children := LeftAsking(s, asked, suppress).children)
  {
    FirstGoneSame(s, s', asked);
  }

  lemma LeftBeginningSame(cfg: Config, s: Sup, s': Sup, failed: Child, plan: seq<PlanItem>)
    requires s'.children == s.children && s'.live == s.live && s' == s.(group := s'.group)
    ensures PlannedGone(cfg, failed, s) <==> PlannedGone(cfg, failed, s')
    ensures PlannedGone(cfg, failed, s) ==> LeftBeginning(cfg, s, failed, plan) == LeftBeginning(cfg, s', failed, plan)
  {
    FirstGoneSame(s, s', PlannedAsked(cfg, failed, s.children));
    assert forall k :: 0 <= k < |s.children| ==> CanStop(s, s.children[k]) == CanStop(s', s.children[k]);
  }

  // ----- finding the planned rows

  // A planned sibling has left the registry without having been asked to stop.
  ghost predicate PlannedGone(cfg: Config, failed: Child, s: Sup) {
    exists k :: 0 <= k < |s.children| && Planned(cfg, failed, s.children[k]) && !CanStop(s, s.children[k])
  }

  // Of the rows before `r` the planned ones have been asked to stop, and could be.
  ghost predicate Passed(cfg: Config, failed: Child, s: Sup, rows: seq<Row>, r: nat) {
    && SameRefs(s.children, rows)
    && (forall k :: 0 <= k < |rows| ==>
          rows[k] == if k < r && Planned(cfg, failed, s.children[k]) then Halted(s.children[k], false) else s.children[k])
    && (forall k :: 0 <= k < r && k < |rows| && Planned(cfg, failed, s.children[k]) ==> CanStop(s, s.children[k]))
  }

  lemma {:induction false} PlannedPrefix(cfg: Config, failed: Child, rows: seq<Row>, r: nat)
    requires r <= |rows|
    ensures PlannedItems(cfg, failed, rows[..r]) <= PlannedItems(cfg, failed, rows)
    decreases |rows|
  {
    if r == |rows| {
      assert rows[..r] == rows;
    } else {
      PlannedPrefix(cfg, failed, rows[..|rows| - 1], r);
      assert rows[..|rows| - 1][..r] == rows[..r];
    }
  }

  lemma PlannedOneMore(cfg: Config, failed: Child, rows: seq<Row>, r: nat)
    requires r < |rows|
    ensures var here, more := rows[..r], rows[..r + 1];
            if Planned(cfg, failed, rows[r]) then
              && PlannedItems(cfg, failed, more) == PlannedItems(cfg, failed, here) + [PlanItem(rows[r].ref, rows[r].child, Stopped)]
              && PlannedRefs(cfg, failed, more) == PlannedRefs(cfg, failed, here) + [rows[r].ref]
            else
              && PlannedItems(cfg, failed, more) == PlannedItems(cfg, failed, here)
              && PlannedRefs(cfg, failed, more) == PlannedRefs(cfg, failed, here)
  {
    assert rows[..r + 1][..r] == rows[..r];
  }

  // The next planned row, given that there are more of them than before `r`.
  lemma {:induction false} NextPlanned(cfg: Config, failed: Child, rows: seq<Row>, r: nat) returns (q: nat)
    requires r <= |rows| && |PlannedItems(cfg, failed, rows[..r])| < |PlannedItems(cfg, failed, rows)|
    ensures r <= q < |rows| && Planned(cfg, failed, rows[q])
    ensures forall k :: r <= k < q ==> !Planned(cfg, failed, rows[k])
    ensures PlannedItems(cfg, failed, rows)[|PlannedItems(cfg, failed, rows[..r])|] == PlanItem(rows[q].ref, rows[q].child, Stopped)
    ensures |PlannedItems(cfg, failed, rows[..q + 1])| == |PlannedItems(cfg, failed, rows[..r])| + 1
    ensures PlannedRefs(cfg, failed, rows[..q + 1]) == PlannedRefs(cfg, failed, rows[..r]) + [rows[q].ref]
    decreases |rows| - r
  {
    assert rows[..|rows|] == rows;
    PlannedOneMore(cfg, failed, rows, r);
    if Planned(cfg, failed, rows[r]) {
      q := r;
      PlannedPrefix(cfg, failed, rows, r + 1);
    } else {
      q := NextPlanned(cfg, failed, rows, r + 1);
    }
  }

  lemma {:induction false} NonePlannedAfter(cfg: Config, failed: Child, rows: seq<Row>, r: nat)
    requires r <= |rows| && |PlannedItems(cfg, failed, rows[..r])| == |PlannedItems(cfg, failed, rows)|
    ensures forall k :: r <= k < |rows| ==> !Planned(cfg, failed, rows[k])
    ensures PlannedRefs(cfg, failed, rows[..r]) == PlannedRefs(cfg, failed, rows)
    decreases |rows| - r
  {
    if r == |rows| {
      assert rows[..r] == rows;
    } else {
      PlannedOneMore(cfg, failed, rows, r);
      PlannedPrefix(cfg, failed, rows, r + 1);
      NonePlannedAfter(cfg, failed, rows, r + 1);
    }
  }

  lemma PassedFinds(cfg: Config, failed: Child, s: Sup, rows: seq<Row>, r: nat, q: nat)
    requires RefsRise(s.children) && Passed(cfg, failed, s, rows, r) && r <= q < |rows|
    ensures rows[q] == s.children[q] && Find(rows, rows[q].ref) == Some(q)
  {
  }

  lemma PassedNext(cfg: Config, failed: Child, s: Sup, rows: seq<Row>, r: nat, q: nat)
    requires Passed(cfg, failed, s, rows, r) && r <= q < |rows|
    requires Planned(cfg, failed, s.children[q]) && CanStop(s, s.children[q])
    requires forall k :: r <= k < q ==> !Planned(cfg, failed, s.children[k])
    ensures Passed(cfg, failed, s, rows[q := Halted(rows[q], false)], q + 1)
  {
  }

  // `n` planned siblings, those among the first `r` rows of `s`, have been dealt with. Written so
  // that it is unfolded on request only.
  ghost predicate Progress(cfg: Config, failed: Child, s: Sup, now: Sup, n: nat, r: nat) {
    forall u: nat {:trigger Unfold(u)} :: Unfold(u) ==>
      && s.group.Some? && now.live == s.live && r <= |s.children|
      && |PlannedItems(cfg, failed, s.children[..r])| == n
      && now.group == Some(s.group.value.(pending := PlannedRefs(cfg, failed, s.children[..r])))
      && Passed(cfg, failed, s, now.children, r)
  }

  lemma Unstarted(cfg: Config, failed: Child, s: Sup) returns (r: nat)
    requires s.group.Some? && s.group.value.pending == []
    ensures Progress(cfg, failed, s, s, 0, r)
  {
    r := 0;
  }

  lemma OnePlanned(cfg: Config, failed: Child, s: Sup, now: Sup, next: Sup, n: nat, r: nat) returns (r': nat)
    requires RefsRise(s.children) && Progress(cfg, failed, s, now, n, r) && n < |PlannedItems(cfg, failed, s.children)|
    requires match Find(now.children, PlannedItems(cfg, failed, s.children)[n].ref)
             case None => next == now
             case Some(k) =>
               && now.group.Some?
               && next == now.(children := now.children[k := Halted(now.children[k], false)],
                    group := Some(now.group.value.(pending := now.group.value.pending + [now.children[k].ref])))
    ensures var found := Find(now.children, PlannedItems(cfg, failed, s.children)[n].ref);
            && found.Some?
            && if CanStop(now, now.children[found.value]) then Progress(cfg, failed, s, next, n + 1, r')
               else PlannedGone(cfg, failed, s) && LeftSo(cfg, s, failed, next)
  {
    assert Unfold(0);
    var q := NextPlanned(cfg, failed, s.children, r);
    PassedFinds(cfg, failed, s, now.children, r, q);
    r' := q + 1;
    if CanStop(s, s.children[q]) {
      PassedNext(cfg, failed, s, now.children, r, q);
      assert Progress(cfg, failed, s, next, n + 1, r');
    } else {
      StuckAt(cfg, failed, s, now, next, r, q);
    }
  }

  // The children and the group of `next` are as beginning a group leaves them when it fails.
  ghost predicate LeftSo(cfg: Config, s: Sup, failed: Child, next: Sup) {
    && s.group.Some?
    && var left := LeftBeginning(cfg, s, failed, s.group.value.plan);
    next.children == left.children && next.group == left.group
  }

  // The planned child in row `q` has gone.
  lemma StuckAt(cfg: Config, failed: Child, s: Sup, now: Sup, next: Sup, r: nat, q: nat)
    requires r <= q < |s.children| && Passed(cfg, failed, s, now.children, r)
    requires Planned(cfg, failed, s.children[q]) && !CanStop(s, s.children[q])
    requires forall k :: r <= k < q ==> !Planned(cfg, failed, s.children[k])
    requires next.children == now.children[q := Halted(now.children[q], false)]
    requires s.group.Some? && next.group == Some(s.group.value.(pending := PlannedRefs(cfg, failed, s.children[..q + 1])))
    ensures PlannedGone(cfg, failed, s) && LeftSo(cfg, s, failed, next)
  {
    var asked := PlannedAsked(cfg, failed, s.children);
    FirstGoneIs(s, asked, q);
    assert next.children == HaltUpTo(s.children, asked, q, false);
  }

  lemma AllPlanned(cfg: Config, failed: Child, s: Sup, now: Sup, r: nat)
    requires Progress(cfg, failed, s, now, |PlannedItems(cfg, failed, s.children)|, r)
    ensures s.group.Some? && now.children == HaltPlanned(cfg, failed, s.children) && !PlannedGone(cfg, failed, s)
    ensures now.group == Some(s.group.value.(pending := PlannedRefs(cfg, failed, s.children)))
  {
    assert Unfold(0);
    NonePlannedAfter(cfg, failed, s.children, r);
  }
}
