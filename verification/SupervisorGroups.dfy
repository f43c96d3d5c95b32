/**
  Group restarts (`one_for_all`, `rest_for_one`) and shutdown, over whole runs.
*/
module SupervisorGroups {
  import opened ActorControl
  import opened Collections
  import opened Supervisors

  // ----- respawning a plan

  predicate Comes(cfg: Config, item: PlanItem) {
    item.child.spec < |cfg.specs| && ShouldRestart(PolicyOf(cfg, item.child.spec), item.reason)
  }

  // The items that are restarted, in plan order.
  function Restarted(cfg: Config, plan: seq<PlanItem>): seq<PlanItem> {
    if plan == [] then []
    else (if Comes(cfg, plan[0]) then [plan[0]] else []) + Restarted(cfg, plan[1..])
  }

  function PlanSpecs(plan: seq<PlanItem>): seq<nat> {
    seq(|plan|, i requires 0 <= i < |plan| => plan[i].child.spec)
  }

  ghost predicate DistinctSpecs(plan: seq<PlanItem>) {
    forall i, j :: 0 <= i < j < |plan| ==> plan[i].child.spec != plan[j].child.spec
  }

  // New children for these items: consecutive references and start orders, the items'
  // specifications and arguments, running and unsuppressed.
  function NewRows(items: seq<PlanItem>, ref: Ref, order: nat): seq<Row> {
    seq(|items|, i requires 0 <= i < |items| =>
      Row(ref + i, Child(items[i].child.spec, order + i, items[i].child.args, false, false)))
  }

  ghost predicate NoneRegistered(rows: seq<Row>, plan: seq<PlanItem>) {
    forall i, k :: 0 <= i < |rows| && 0 <= k < |plan| ==> rows[i].child.spec != plan[k].child.spec
  }

  lemma RespawnAddsOne(cfg: Config, s: Sup, child: Child)
    requires Inv(cfg, s) && cfg.strategy != SimpleOneForOne && child.spec < |cfg.specs|
    requires forall i :: 0 <= i < |s.children| ==> s.children[i].child.spec != child.spec
    ensures Respawn(cfg, s, child) == Spawn(s, child.spec, child.args) && Inv(cfg, Respawn(cfg, s, child))
    ensures Respawn(cfg, s, child).children
         == s.children + [Row(s.nextRef, Child(child.spec, s.nextOrder, child.args, false, false))]
  {
    SpawnAppends(cfg, s, child.spec, child.args);
  }

  // With none of the planned specifications registered, respawning the plan adds exactly one new
  // child for each item to be restarted, at the end of the map, in plan order.
  lemma {:induction false} RespawnAllAdds(cfg: Config, s: Sup, plan: seq<PlanItem>)
    requires Inv(cfg, s) && cfg.strategy != SimpleOneForOne
    requires forall k :: 0 <= k < |plan| ==> plan[k].child.spec < |cfg.specs|
    requires DistinctSpecs(plan) && NoneRegistered(s.children, plan)
    ensures RespawnAll(cfg, s, plan).children == s.children + NewRows(Restarted(cfg, plan), s.nextRef, s.nextOrder)
    decreases |plan|
  {
    if plan != [] {
      var rest := plan[1..];
      if Comes(cfg, plan[0]) {
        var respawned := Respawn(cfg, s, plan[0].child);
        RespawnAddsOne(cfg, s, plan[0].child);
        assert NoneRegistered(respawned.children, rest);
        RespawnAllAdds(cfg, respawned, rest);
        NewRowsCons(Restarted(cfg, rest), plan[0], s.nextRef, s.nextOrder);
      } else {
        RespawnAllAdds(cfg, s, rest);
      }
    }
  }

  lemma NewRowsCons(items: seq<PlanItem>, item: PlanItem, ref: Ref, order: nat)
    ensures NewRows([item] + items, ref, order)
         == [Row(ref, Child(item.child.spec, order, item.child.args, false, false))] + NewRows(items, ref + 1, order + 1)
  {
  }

  // ----- a group in progress

  // The registered children split into those the group leaves alone and, after them, those it is
  // waiting for.
  function Kept(s: Sup): seq<Row>
    requires s.group.Some? && |s.group.value.pending| <= |s.children|
  {
    s.children[..|s.children| - |s.group.value.pending|]
  }

  function Awaited(s: Sup): seq<Row>
    requires s.group.Some? && |s.group.value.pending| <= |s.children|
  {
    s.children[|s.children| - |s.group.value.pending|..]
  }

  ghost predicate GroupInv(cfg: Config, s: Sup) {
    s.group.Some? ==>
      var plan, pending := s.group.value.plan, s.group.value.pending;
      && (cfg.strategy == OneForAll || cfg.strategy == RestForOne)
      && !s.stopping
      && 0 < |pending| <= |s.children|
      && pending == Refs(Awaited(s))
      && (forall k :: 0 <= k < |Awaited(s)| ==> Awaited(s)[k].child.stopping && !Awaited(s)[k].child.suppress)
      && plan != [] && Comes(cfg, plan[0])
      && (forall k :: 0 < k < |plan| ==> plan[k].reason == Stopped)
      && DistinctSpecs(plan)
      && NoneRegistered(Kept(s), plan)
      && Subsequence(Specs(Awaited(s)), PlanSpecs(plan[1..]))
      && (cfg.strategy == OneForAll ==> Kept(s) == [])
  }

  // The pending list is non-empty, without duplicates, and made of the last registered children,
  // which have been asked to stop.
  ghost predicate PendingSound(s: Sup) {
    s.group.Some? ==>
      var pending := s.group.value.pending;
      && 0 < |pending| <= |s.children|
      && (forall i, j :: 0 <= i < j < |pending| ==> pending[i] != pending[j])
      && forall i :: 0 <= i < |pending| ==>
           var row := s.children[|s.children| - |pending| + i];
           row.ref == pending[i] && row.child.stopping
  }

  lemma PendingInGroup(cfg: Config, s: Sup)
    requires Inv(cfg, s) && GroupInv(cfg, s) && s.group.Some?
    ensures PendingSound(s)
  {
  }

  // ----- beginning a group

  function Items(rows: seq<Row>): seq<PlanItem> {
    seq(|rows|, i requires 0 <= i < |rows| => PlanItem(rows[i].ref, rows[i].child, Stopped))
  }

  function HaltedRows(rows: seq<Row>): seq<Row> {
    seq(|rows|, i requires 0 <= i < |rows| => Halted(rows[i], false))
  }

  // The planned siblings are the rows from `m` on: all of them under `one_for_all`, those started
  // after the failed child under `rest_for_one`.
  ghost predicate PlannedFrom(cfg: Config, failed: Child, rows: seq<Row>, m: nat) {
    && m <= |rows|
    && (forall k :: 0 <= k < m ==> !Planned(cfg, failed, rows[k]))
    && (forall k :: m <= k < |rows| ==> Planned(cfg, failed, rows[k]))
  }

  lemma PlannedIsTail(cfg: Config, failed: Child, rows: seq<Row>, m: nat)
    requires PlannedFrom(cfg, failed, rows, m)
    ensures PlannedItems(cfg, failed, rows) == Items(rows[m..])
    ensures PlannedRefs(cfg, failed, rows) == Refs(rows[m..])
    ensures HaltPlanned(cfg, failed, rows) == rows[..m] + HaltedRows(rows[m..])
  {
    PlannedItemsTail(cfg, failed, rows, m);
  }

  lemma {:induction false} PlannedItemsTail(cfg: Config, failed: Child, rows: seq<Row>, m: nat)
    requires PlannedFrom(cfg, failed, rows, m)
    ensures PlannedItems(cfg, failed, rows) == Items(rows[m..])
    ensures PlannedRefs(cfg, failed, rows) == Refs(rows[m..])
    decreases |rows|
  {
    if rows != [] {
      var n := |rows| - 1;
      if m <= n {
        PlannedItemsTail(cfg, failed, rows[..n], m);
        assert rows[m..] == rows[..n][m..] + [rows[n]];
      } else {
        PlannedItemsTail(cfg, failed, rows[..n], n);
        assert rows[..n][n..] == [] == rows[m..];
      }
    }
  }

  function PlanFor(ref: Ref, failed: Child, reason: Reason, siblings: seq<Row>): seq<PlanItem> {
    [PlanItem(ref, failed, reason)] + Items(siblings)
  }

  // The state of a group just begun, leaving rows `..m` alone.
  function Begun(s: Sup, ref: Ref, failed: Child, reason: Reason, m: nat): Sup
    requires m <= |s.children|
  {
    s.(group := Some(Group(PlanFor(ref, failed, reason, s.children[m..]), Refs(s.children[m..]))),
       children := s.children[..m] + HaltedRows(s.children[m..]))
  }

  ghost predicate CanBegin(cfg: Config, s: Sup, failed: Child, reason: Reason, m: nat) {
    && Inv(cfg, s) && s.group.None? && !s.stopping
    && (cfg.strategy == OneForAll || cfg.strategy == RestForOne)
    && failed.spec < |cfg.specs| && ShouldRestart(PolicyOf(cfg, failed.spec), reason)
    && (forall k :: 0 <= k < |s.children| ==> s.children[k].child.spec != failed.spec)
    && PlannedFrom(cfg, failed, s.children, m) && (cfg.strategy == OneForAll ==> m == 0)
  }

  lemma PlanForDistinct(cfg: Config, s: Sup, ref: Ref, failed: Child, reason: Reason, m: nat)
    requires CanBegin(cfg, s, failed, reason, m)
    ensures DistinctSpecs(PlanFor(ref, failed, reason, s.children[m..]))
    ensures NoneRegistered(s.children[..m], PlanFor(ref, failed, reason, s.children[m..]))
    ensures forall k :: 0 <= k < |PlanFor(ref, failed, reason, s.children[m..])| ==>
              PlanFor(ref, failed, reason, s.children[m..])[k].child.spec < |cfg.specs|
  {
  }

  lemma BegunGroupInv(cfg: Config, s: Sup, ref: Ref, failed: Child, reason: Reason, m: nat)
    requires CanBegin(cfg, s, failed, reason, m) && m < |s.children|
    ensures GroupInv(cfg, Begun(s, ref, failed, reason, m))
    ensures Kept(Begun(s, ref, failed, reason, m)) == s.children[..m]
  {
    PlanForDistinct(cfg, s, ref, failed, reason, m);
    var begun := Begun(s, ref, failed, reason, m);
    assert Kept(begun) == s.children[..m];
    assert Awaited(begun) == HaltedRows(s.children[m..]);
    assert Refs(Awaited(begun)) == Refs(s.children[m..]);
    var plan := begun.group.value.plan;
    assert plan[1..] == Items(s.children[m..]);
    assert Specs(Awaited(begun)) == PlanSpecs(plan[1..]);
    SubsequenceOfSelf(PlanSpecs(plan[1..]));
  }

  // The group that starts when a child fails: it plans that child and the rows from `m` on, and
  // leaves the rows before alone. With nothing to wait for, it ends at once.
  lemma BeginGroupOutcome(cfg: Config, s: Sup, ref: Ref, failed: Child, reason: Reason, m: nat)
    requires CanBegin(cfg, s, failed, reason, m)
    requires BeginGroup(cfg, s, ref, failed, reason).Done?
    ensures var s' := BeginGroup(cfg, s, ref, failed, reason).value;
            if m < |s.children| then s' == Begun(s, ref, failed, reason, m)
            else
              && s'.group.None? && !s'.stopping
              && s'.children == s.children + NewRows(Restarted(cfg, PlanFor(ref, failed, reason, [])), s.nextRef, s.nextOrder)
  {
    PlannedIsTail(cfg, failed, s.children, m);
    if m == |s.children| {
      PlanForDistinct(cfg, s, ref, failed, reason, m);
      assert s.children[m..] == [];
      assert HaltPlanned(cfg, failed, s.children) == s.children;
      RespawnAllKeepsInv(cfg, s, PlanFor(ref, failed, reason, []));
      RespawnAllAdds(cfg, s, PlanFor(ref, failed, reason, []));
    }
  }

  // ----- a termination signal during a group

  // The rows of other references.
  function Others(rows: seq<Row>, ref: Ref): seq<Row> {
    if rows == [] then []
    else
      var last := rows[|rows| - 1];
      Others(rows[..|rows| - 1], ref) + if last.ref == ref then [] else [last]
  }

  lemma {:induction false} OthersAppend(front: seq<Row>, back: seq<Row>, ref: Ref)
    ensures Others(front + back, ref) == Others(front, ref) + Others(back, ref)
    decreases |back|
  {
    if back == [] {
      assert front + back == front;
    } else {
      var n := |back| - 1;
      OthersAppend(front, back[..n], ref);
      assert (front + back)[..|front + back| - 1] == front + back[..n];
    }
  }

  lemma {:induction false} OthersIsAll(rows: seq<Row>, ref: Ref)
    requires forall k :: 0 <= k < |rows| ==> rows[k].ref != ref
    ensures Others(rows, ref) == rows
    decreases |rows|
  {
    if rows != [] {
      OthersIsAll(rows[..|rows| - 1], ref);
    }
  }

  lemma {:induction false} OthersIsFewer(rows: seq<Row>, ref: Ref)
    ensures Subsequence(Others(rows, ref), rows)
    ensures forall k :: 0 <= k < |Others(rows, ref)| ==> Others(rows, ref)[k].ref != ref
    decreases |rows|
  {
    if rows == [] {
      EmptySubsequence(rows);
    } else {
      var n := |rows| - 1;
      OthersIsFewer(rows[..n], ref);
      SubsequenceOfSnoc(Others(rows[..n], ref), rows[..n], rows[n]);
      assert rows == rows[..n] + [rows[n]];
      assert Others(rows[..n], ref) + [] == Others(rows[..n], ref);
    }
  }

  lemma {:induction false} EraseIsOthers(rows: seq<Row>, ref: Ref)
    requires RefsRise(rows)
    ensures Erase(rows, ref) == Others(rows, ref)
    decreases |rows|
  {
    if rows != [] {
      var front, last := rows[..|rows| - 1], rows[|rows| - 1];
      if last.ref == ref {
        OthersIsAll(front, ref);
        assert rows[|rows|..] == [];
      } else {
        EraseIsOthers(front, ref);
        EraseBeforeLast(rows, ref);
      }
    }
  }

  lemma EraseBeforeLast(rows: seq<Row>, ref: Ref)
    requires rows != [] && rows[|rows| - 1].ref != ref
    ensures Erase(rows, ref) == Erase(rows[..|rows| - 1], ref) + [rows[|rows| - 1]]
  {
    var n := |rows| - 1;
    var front := rows[..n];
    assert rows == front + [rows[n]];
    match Find(front, ref)
    case None =>
    case Some(i) =>
      assert rows[..i] == front[..i] && rows[i + 1..] == front[i + 1..] + [rows[n]];
  }

  lemma {:induction false} WithoutSnoc(refs: seq<Ref>, last: Ref, ref: Ref)
    requires ref !in refs || last != ref
    ensures Without(refs + [last], ref) == if last == ref then refs else Without(refs, ref) + [last]
    decreases |refs|
  {
    if refs != [] && refs[0] != ref {
      WithoutSnoc(refs[1..], last, ref);
      assert (refs + [last])[1..] == refs[1..] + [last];
    } else {
      assert refs != [] ==> (refs + [last])[1..] == refs[1..] + [last];
    }
  }

  lemma {:induction false} WithoutIsOthers(rows: seq<Row>, ref: Ref)
    requires RefsRise(rows)
    ensures Without(Refs(rows), ref) == Refs(Others(rows, ref))
    decreases |rows|
  {
    if rows != [] {
      var front, last := rows[..|rows| - 1], rows[|rows| - 1];
      assert Refs(rows) == Refs(front) + [last.ref];
      WithoutSnoc(Refs(front), last.ref, ref);
      if last.ref == ref {
        OthersIsAll(front, ref);
      } else {
        WithoutIsOthers(front, ref);
      }
    }
  }

  lemma FewerSpecs(rows: seq<Row>, all: seq<Row>)
    requires Subsequence(rows, all)
    ensures Subsequence(Specs(rows), Specs(all))
  {
    var at: seq<nat> :| PickedBy(rows, all, at);
    assert PickedBy(Specs(rows), Specs(all), at);
  }

  // The group's rows after a signal about `ref`.
  lemma GroupRowsAfter(cfg: Config, s: Sup, ref: Ref)
    requires Inv(cfg, s) && GroupInv(cfg, s) && s.group.Some?
    ensures Erase(s.children, ref) == Others(Kept(s), ref) + Others(Awaited(s), ref)
    ensures Without(s.group.value.pending, ref) == Refs(Others(Awaited(s), ref))
  {
    assert s.children == Kept(s) + Awaited(s);
    EraseIsOthers(s.children, ref);
    OthersAppend(Kept(s), Awaited(s), ref);
    TailRises(s.children, |s.children| - |s.group.value.pending|);
    WithoutIsOthers(Awaited(s), ref);
  }

  lemma TailRises(rows: seq<Row>, n: nat)
    requires RefsRise(rows) && n <= |rows|
    ensures RefsRise(rows[n..])
  {
  }

  // During a group a signal removes the child it is about, planned or not; nothing else happens
  // until none of the awaited children is left.
  lemma GroupStopWaits(cfg: Config, s: Sup, ref: Ref)
    requires Inv(cfg, s) && GroupInv(cfg, s) && s.group.Some?
    requires Without(s.group.value.pending, ref) != []
    ensures var s' := GroupStop(cfg, s, ref);
            && GroupInv(cfg, s')
            && s'.group == Some(Group(s.group.value.plan, Without(s.group.value.pending, ref)))
            && Kept(s') == Others(Kept(s), ref) && Awaited(s') == Others(Awaited(s), ref)
  {
    var plan, kept, awaited := s.group.value.plan, Others(Kept(s), ref), Others(Awaited(s), ref);
    GroupRowsAfter(cfg, s, ref);
    var s' := GroupStop(cfg, s, ref);
    assert s'.children == kept + awaited && |Without(s.group.value.pending, ref)| == |awaited|;
    assert Kept(s') == kept && Awaited(s') == awaited;
    OthersIsFewer(Awaited(s), ref);
    FewerSpecs(awaited, Awaited(s));
    SubsequenceTransitive(Specs(awaited), Specs(Awaited(s)), PlanSpecs(plan[1..]));
    FewerStillStopping(awaited, Awaited(s));
    OthersIsFewer(Kept(s), ref);
    FewerNoneRegistered(kept, Kept(s), plan);
  }

  lemma FewerStillStopping(rows: seq<Row>, all: seq<Row>)
    requires Subsequence(rows, all)
    requires forall k :: 0 <= k < |all| ==> all[k].child.stopping && !all[k].child.suppress
    ensures forall k :: 0 <= k < |rows| ==> rows[k].child.stopping && !rows[k].child.suppress
  {
  }

  lemma FewerNoneRegistered(rows: seq<Row>, all: seq<Row>, plan: seq<PlanItem>)
    requires Subsequence(rows, all) && NoneRegistered(all, plan)
    ensures NoneRegistered(rows, plan)
  {
  }

  lemma {:induction false} WithoutShrinks(refs: seq<Ref>, ref: Ref)
    ensures |Without(refs, ref)| == |refs| - if ref in refs then 1 else 0
    decreases |refs|
  {
    if refs != [] && refs[0] != ref {
      WithoutShrinks(refs[1..], ref);
    }
  }

  // Each awaited termination shortens the list by one; any other leaves the group as it is; and it
  // is the last awaited one that ends the group.
  lemma AwaitedTerminationsCountDown(cfg: Config, s: Sup, ref: Ref)
    requires RunInv(cfg, s) && s.group.Some?
    ensures var s', pending := GroupStop(cfg, s, ref), s.group.value.pending;
            && (ref !in pending ==> s'.group == s.group)
            && (ref in pending && |pending| > 1 ==> s'.group.Some? && |s'.group.value.pending| == |pending| - 1)
            && (ref in pending && |pending| == 1 ==> s'.group.None?)
  {
    var pending := s.group.value.pending;
    WithoutShrinks(pending, ref);
    if Without(pending, ref) == [] {
      GroupStopEnds(cfg, s, ref);
    } else {
      GroupStopWaits(cfg, s, ref);
      if ref !in pending {
        WithoutIsSame(pending, ref);
      }
    }
  }

  lemma {:induction false} WithoutIsSame(refs: seq<Ref>, ref: Ref)
    requires ref !in refs
    ensures Without(refs, ref) == refs
    decreases |refs|
  {
    if refs != [] {
      WithoutIsSame(refs[1..], ref);
    }
  }

  // The signal that leaves nothing awaited ends the group: none of its old children is registered
  // any more, and one new child is added for the failed one and for each planned sibling that is
  // restarted, with the old arguments, in plan order.
  lemma GroupStopEnds(cfg: Config, s: Sup, ref: Ref)
    requires Inv(cfg, s) && GroupInv(cfg, s) && s.group.Some?
    requires Without(s.group.value.pending, ref) == []
    ensures var s' := GroupStop(cfg, s, ref);
            && s'.group.None? && !s'.stopping
            && s'.children == Others(Kept(s), ref) + NewRows(Restarted(cfg, s.group.value.plan), s.nextRef, s.nextOrder)
  {
    var plan, kept := s.group.value.plan, Others(Kept(s), ref);
    GroupRowsAfter(cfg, s, ref);
    assert |Others(Awaited(s), ref)| == |Refs(Others(Awaited(s), ref))| == 0;
    assert Erase(s.children, ref) == kept;
    var ended := s.(children := kept, group := None);
    ErasedIsFewer(s.children, ref);
    FewerKeepInv(cfg, s, kept);
    OthersIsFewer(Kept(s), ref);
    FewerNoneRegistered(kept, Kept(s), plan);
    RespawnAllKeepsInv(cfg, ended, plan);
    RespawnAllAdds(cfg, ended, plan);
  }

  // A planned sibling is restarted unless it is temporary: it stops on request, never normally.
  lemma {:induction false} RestartedSiblings(cfg: Config, plan: seq<PlanItem>)
    requires forall k :: 0 <= k < |plan| ==> plan[k].child.spec < |cfg.specs| && plan[k].reason == Stopped
    ensures Restarted(cfg, plan) == NotTemporary(cfg, plan)
    decreases |plan|
  {
    if plan != [] {
      RestartedSiblings(cfg, plan[1..]);
    }
  }

  function NotTemporary(cfg: Config, plan: seq<PlanItem>): seq<PlanItem>
    requires forall k :: 0 <= k < |plan| ==> plan[k].child.spec < |cfg.specs|
    decreases |plan|
  {
    if plan == [] then []
    else (if PolicyOf(cfg, plan[0].child.spec) == Temporary then [] else [plan[0]]) + NotTemporary(cfg, plan[1..])
  }

  // ----- whole runs

  // Shut down: no group, and every child left has been asked to stop and will not be restarted.
  ghost predicate Shut(s: Sup) {
    && s.group.None?
    && forall k :: 0 <= k < |s.children| ==> s.children[k].child.stopping && s.children[k].child.suppress
  }

  ghost predicate RunInv(cfg: Config, s: Sup) {
    && Inv(cfg, s)
    && GroupInv(cfg, s)
    && (s.stopping ==> Shut(s))
  }

  // No administration while a group is in progress, and no new start or restart after a stop.
  predicate Calm(s: Sup, a: Action) {
    match a
    case Start(_, _) => s.group.None? && !s.stopping
    case Restart(_) => s.group.None? && !s.stopping
    case StopOne(_) => s.group.None?
    case Delete(_) => s.group.None?
    case _ => true
  }

  lemma StopShuts(cfg: Config, s: Sup)
    requires Inv(cfg, s) && (s.stopping ==> Shut(s)) && Stop(s).Done?
    ensures Shut(Stop(s).value) && Stop(s).value.stopping
  {
  }

  // Where the planned siblings of the child in row `i` begin.
  function PlanStart(cfg: Config, i: nat): nat {
    if cfg.strategy == RestForOne then i else 0
  }

  lemma FailureCanBegin(cfg: Config, s: Sup, i: nat, reason: Reason)
    requires Inv(cfg, s) && s.group.None? && !s.stopping && i < |s.children|
    requires cfg.strategy == OneForAll || cfg.strategy == RestForOne
    requires ShouldRestart(PolicyOf(cfg, s.children[i].child.spec), reason)
    ensures var erased := s.(children := s.children[..i] + s.children[i + 1..]);
            CanBegin(cfg, erased, s.children[i].child, reason, PlanStart(cfg, i))
  {
    SubsequenceWithout(s.children, i);
    FewerKeepInv(cfg, s, s.children[..i] + s.children[i + 1..]);
  }

  lemma RegisterOutcome(cfg: Config, s: Sup, now: Time)
    requires Inv(cfg, s) && s.group.None? && !s.stopping && Register(cfg, s, now).Done?
    ensures var (s', accepted) := Register(cfg, s, now).value;
            if accepted then s' == s.(times := s'.times, decisions := s'.decisions)
            else Inv(cfg, s') && Shut(s') && s'.stopping && s'.children == HaltAll(s.children)
  {
  }

  // What becomes of a supervisor whose child in row `i` has failed.
  ghost predicate AfterFailure(cfg: Config, s: Sup, i: nat, reason: Reason, s': Sup)
    requires i < |s.children|
  {
    var row, m, rest := s.children[i], PlanStart(cfg, i), s.children[..i] + s.children[i + 1..];
    var plan := PlanFor(row.ref, row.child, reason, rest[m..]);
    if s'.stopping then Shut(s') && s'.children == HaltAll(rest)
    else if m < |rest| then
      GroupInv(cfg, s') && s'.group == Some(Group(plan, Refs(rest[m..]))) && Kept(s') == rest[..m]
    else
      s'.group.None? && s'.children == rest + NewRows(Restarted(cfg, plan), s.nextRef, s.nextOrder)
  }

  lemma TerminateFailing(cfg: Config, s: Sup, i: nat, reason: Reason, now: Time)
    requires Inv(cfg, s) && s.group.None? && i < |s.children|
    requires cfg.strategy == OneForAll || cfg.strategy == RestForOne
    requires !s.children[i].child.suppress && ShouldRestart(PolicyOf(cfg, s.children[i].child.spec), reason)
    ensures var row, erased := s.children[i], s.(children := s.children[..i] + s.children[i + 1..]);
            Terminate(cfg, s, row.ref, reason, now) ==
            match Register(cfg, erased, now)
            case Threw((left, _)) => Threw(left)
            case Done((decided, false)) => Done(decided)
            case Done((decided, true)) =>
              assert SpecsKnown(cfg, decided) by { ErasedKnown(cfg, s, i, now); }
              BeginGroup(cfg, decided, row.ref, row.child, reason)
  {
    TerminateRestarts(cfg, s, i, reason, now);
  }

  lemma TerminateRestarts(cfg: Config, s: Sup, i: nat, reason: Reason, now: Time)
    requires Inv(cfg, s) && s.group.None? && i < |s.children|
    requires !s.children[i].child.suppress && ShouldRestart(PolicyOf(cfg, s.children[i].child.spec), reason)
    ensures var row, erased := s.children[i], s.(children := s.children[..i] + s.children[i + 1..]);
            && SpecsKnown(cfg, erased)
            && Terminate(cfg, s, row.ref, reason, now) == RestartFailed(cfg, erased, row.ref, row.child, reason, now)
  {
    assert Find(s.children, s.children[i].ref) == Some(i);
  }

  lemma ErasedKnown(cfg: Config, s: Sup, i: nat, now: Time)
    requires Inv(cfg, s) && i < |s.children|
    ensures var outcome := Register(cfg, s.(children := s.children[..i] + s.children[i + 1..]), now);
            outcome.Done? ==> SpecsKnown(cfg, outcome.value.0)
  {
  }

  // A child fails: unless the intensity limit stops the supervisor, a group begins with the failed
  // child and, of its siblings, all under `one_for_all` and the later ones under `rest_for_one`.
  lemma FailureOutcome(cfg: Config, s: Sup, i: nat, reason: Reason, now: Time)
    requires RunInv(cfg, s) && s.group.None? && i < |s.children|
    requires cfg.strategy == OneForAll || cfg.strategy == RestForOne
    requires !s.children[i].child.suppress && ShouldRestart(PolicyOf(cfg, s.children[i].child.spec), reason)
    requires Terminate(cfg, s, s.children[i].ref, reason, now).Done?
    ensures AfterFailure(cfg, s, i, reason, Terminate(cfg, s, s.children[i].ref, reason, now).value)
  {
    assert !s.stopping;
    TerminateFailing(cfg, s, i, reason, now);
    var row, m := s.children[i], PlanStart(cfg, i);
    var erased := s.(children := s.children[..i] + s.children[i + 1..]);
    FailureCanBegin(cfg, s, i, reason);
    RegisterOutcome(cfg, erased, now);
    var (decided, accepted) := Register(cfg, erased, now).value;
    if accepted {
      FailureAccepted(cfg, s, i, reason, decided);
    }
  }

  lemma FailureAccepted(cfg: Config, s: Sup, i: nat, reason: Reason, decided: Sup)
    requires i < |s.children|
    requires decided.children == s.children[..i] + s.children[i + 1..]
    requires decided.nextRef == s.nextRef && decided.nextOrder == s.nextOrder
    requires CanBegin(cfg, decided, s.children[i].child, reason, PlanStart(cfg, i))
    requires BeginGroup(cfg, decided, s.children[i].ref, s.children[i].child, reason).Done?
    ensures AfterFailure(cfg, s, i, reason, BeginGroup(cfg, decided, s.children[i].ref, s.children[i].child, reason).value)
  {
    GroupBegins(cfg, decided, s.children[i].ref, s.children[i].child, reason, PlanStart(cfg, i));
  }

  lemma GroupBegins(cfg: Config, s: Sup, ref: Ref, failed: Child, reason: Reason, m: nat)
    requires CanBegin(cfg, s, failed, reason, m) && BeginGroup(cfg, s, ref, failed, reason).Done?
    ensures var s' := BeginGroup(cfg, s, ref, failed, reason).value;
            var plan := PlanFor(ref, failed, reason, s.children[m..]);
            && !s'.stopping
            && if m < |s.children| then
                 GroupInv(cfg, s') && s'.group == Some(Group(plan, Refs(s.children[m..]))) && Kept(s') == s.children[..m]
               else
                 s'.group.None? && s'.children == s.children + NewRows(Restarted(cfg, plan), s.nextRef, s.nextOrder)
  {
    BeginGroupOutcome(cfg, s, ref, failed, reason, m);
    if m < |s.children| {
      BegunGroupInv(cfg, s, ref, failed, reason, m);
    } else {
      assert s.children[m..] == [];
    }
  }

  lemma TerminateSingle(cfg: Config, s: Sup, i: nat, reason: Reason, now: Time)
    requires Inv(cfg, s) && s.group.None? && i < |s.children|
    requires cfg.strategy == OneForOne || cfg.strategy == SimpleOneForOne
    requires !s.children[i].child.suppress && ShouldRestart(PolicyOf(cfg, s.children[i].child.spec), reason)
    ensures var row, erased := s.children[i], s.(children := s.children[..i] + s.children[i + 1..]);
            Terminate(cfg, s, row.ref, reason, now) ==
            match Register(cfg, erased, now)
            case Threw((left, _)) => Threw(left)
            case Done((decided, false)) => Done(decided)
            case Done((decided, true)) => Done(Respawn(cfg, decided, row.child))
  {
    TerminateRestarts(cfg, s, i, reason, now);
  }

  // What becomes of a supervisor that restarts children one by one, when the one in row `i` fails.
  ghost predicate AfterSingle(s: Sup, i: nat, s': Sup)
    requires i < |s.children|
  {
    var row, rest := s.children[i], s.children[..i] + s.children[i + 1..];
    if s'.stopping then Shut(s') && s'.children == HaltAll(rest)
    else
      && s'.group.None?
      && s'.children == rest + [Row(s.nextRef, Child(row.child.spec, s.nextOrder, row.child.args, false, false))]
  }

  lemma SingleOutcome(cfg: Config, s: Sup, i: nat, reason: Reason, now: Time)
    requires RunInv(cfg, s) && s.group.None? && i < |s.children|
    requires cfg.strategy == OneForOne || cfg.strategy == SimpleOneForOne
    requires !s.children[i].child.suppress && ShouldRestart(PolicyOf(cfg, s.children[i].child.spec), reason)
    requires Terminate(cfg, s, s.children[i].ref, reason, now).Done?
    ensures AfterSingle(s, i, Terminate(cfg, s, s.children[i].ref, reason, now).value)
  {
    assert !s.stopping;
    TerminateSingle(cfg, s, i, reason, now);
    var child := s.children[i].child;
    var erased := s.(children := s.children[..i] + s.children[i + 1..]);
    SubsequenceWithout(s.children, i);
    FewerKeepInv(cfg, s, erased.children);
    RegisterOutcome(cfg, erased, now);
    var (decided, accepted) := Register(cfg, erased, now).value;
    if accepted {
      SpecGone(cfg, s, i);
      SpawnAppends(cfg, decided, child.spec, child.args);
    }
  }

  lemma SpecGone(cfg: Config, s: Sup, i: nat)
    requires Inv(cfg, s) && i < |s.children|
    ensures var rest := s.children[..i] + s.children[i + 1..];
            cfg.strategy != SimpleOneForOne ==> forall k :: 0 <= k < |rest| ==>
                 rest[k].child.spec != s.children[i].child.spec
  {
  }

  // The signal is about no child, or about one that is not to be restarted.
  lemma NoRestartOutcome(cfg: Config, s: Sup, ref: Ref, reason: Reason, now: Time)
    requires Inv(cfg, s) && s.group.None?
    requires Find(s.children, ref).Some? ==>
               var child := s.children[Find(s.children, ref).value].child;
               child.suppress || !ShouldRestart(PolicyOf(cfg, child.spec), reason)
    ensures Terminate(cfg, s, ref, reason, now) == Done(s.(children := Erase(s.children, ref)))
    ensures Shut(s) ==> Shut(s.(children := Erase(s.children, ref)))
  {
  }

  lemma TerminateKeepsRunInv(cfg: Config, s: Sup, ref: Ref, reason: Reason, now: Time)
    requires RunInv(cfg, s) && Terminate(cfg, s, ref, reason, now).Done?
    ensures RunInv(cfg, Terminate(cfg, s, ref, reason, now).value)
  {
    TerminateKeepsInv(cfg, s, ref, reason, now);
    if s.group.Some? {
      if Without(s.group.value.pending, ref) == [] {
        GroupStopEnds(cfg, s, ref);
      } else {
        GroupStopWaits(cfg, s, ref);
      }
    } else {
      var found := Find(s.children, ref);
      if found.None? || s.children[found.value].child.suppress
         || !ShouldRestart(PolicyOf(cfg, s.children[found.value].child.spec), reason) {
        NoRestartOutcome(cfg, s, ref, reason, now);
      } else if cfg.strategy == OneForOne || cfg.strategy == SimpleOneForOne {
        SingleOutcome(cfg, s, found.value, reason, now);
      } else {
        FailureOutcome(cfg, s, found.value, reason, now);
      }
    }
  }

  lemma StepKeepsRunInv(cfg: Config, s: Sup, a: Action)
    requires RunInv(cfg, s) && Allowed(cfg, s, a) && Calm(s, a) && Step(cfg, s, a).Done?
    ensures RunInv(cfg, Step(cfg, s, a).value)
  {
    StepKeepsInv(cfg, s, a);
    match a
    case Down(ref, reason, now) => if ref != 0 { TerminateKeepsRunInv(cfg, s, ref, reason, now); }
    case StopSelf => StopShuts(cfg, s);
    case Start(spec, args) => StartChildKeepsInv(cfg, s, spec, args);
    case StopOne(spec) =>
    case Restart(spec) =>
      var unsuppressed := s.(children := Unsuppress(s.children, spec));
      FlagsKeepInv(cfg, s, unsuppressed);
      RestartEachKeepsInv(cfg, unsuppressed, spec, RefsOf(s.children, spec));
    case Delete(spec) => DeleteShuts(cfg, s, spec);
    case Dies(ref) => WorldKeepsGroup(cfg, s, s.(live := s.live - {ref}));
    case SpawnedElsewhere => WorldKeepsGroup(cfg, s, s.(live := s.live + {s.nextRef}, nextRef := s.nextRef + 1));
  }

  lemma WorldKeepsGroup(cfg: Config, s: Sup, s': Sup)
    requires GroupInv(cfg, s) && s' == s.(live := s'.live, nextRef := s'.nextRef)
    ensures GroupInv(cfg, s')
    ensures s.group.Some? ==> Kept(s') == Kept(s) && Awaited(s') == Awaited(s)
  {
  }

  lemma DeleteShuts(cfg: Config, s: Sup, spec: nat)
    requires Inv(cfg, s) && s.group.None? && (s.stopping ==> Shut(s)) && DeleteChild(s, spec).Done?
    ensures var s' := DeleteChild(s, spec).value;
            s'.group.None? && s'.stopping == s.stopping && (s'.stopping ==> Shut(s'))
  {
    var halted := HaltSpec(s.children, spec);
    OtherSpecsIsFewer(halted, spec);
    var at: seq<nat> :| PickedBy(OtherSpecs(halted, spec), halted, at);
  }

  // A run without exceptions, calmly administered.
  ghost predicate IsCalmRun(cfg: Config, states: seq<Sup>, actions: seq<Action>) {
    && |states| == |actions| + 1
    && forall i :: 0 <= i < |actions| ==>
         && SpecsKnown(cfg, states[i]) && Allowed(cfg, states[i], actions[i]) && Calm(states[i], actions[i])
         && Step(cfg, states[i], actions[i]) == Done(states[i + 1])
  }

  lemma InitialRunInv(cfg: Config, s: Sup)
    requires Initial(s)
    ensures RunInv(cfg, s)
  {
  }

  lemma {:induction false} RunKeepsRunInv(cfg: Config, states: seq<Sup>, actions: seq<Action>, i: nat)
    requires IsCalmRun(cfg, states, actions) && RunInv(cfg, states[0]) && i <= |actions|
    ensures RunInv(cfg, states[i])
  {
    if i > 0 {
      RunKeepsRunInv(cfg, states, actions, i - 1);
      assert Step(cfg, states[i - 1], actions[i - 1]) == Done(states[i - 1 + 1]);
      StepKeepsRunInv(cfg, states[i - 1], actions[i - 1]);
    }
  }

  // In every calm run: whatever a group waits for is there and is stopping.
  lemma PendingIsSound(cfg: Config, states: seq<Sup>, actions: seq<Action>, i: nat)
    requires IsCalmRun(cfg, states, actions) && Initial(states[0]) && i <= |actions|
    ensures PendingSound(states[i])
  {
    InitialRunInv(cfg, states[0]);
    RunKeepsRunInv(cfg, states, actions, i);
    if states[i].group.Some? {
      PendingInGroup(cfg, states[i]);
    }
  }

  // ----- nothing is spawned after a stop

  // Stopped for good: `s'` is `s` with possibly fewer children.
  ghost predicate Quieter(s: Sup, s': Sup) {
    && s'.stopping && Shut(s')
    && s'.nextOrder == s.nextOrder && s'.decisions == s.decisions
    && Subsequence(s'.children, s.children)
  }

  lemma QuieterTransitive(a: Sup, b: Sup, c: Sup)
    requires Quieter(a, b) && Quieter(b, c)
    ensures Quieter(a, c)
  {
    SubsequenceTransitive(c.children, b.children, a.children);
  }

  lemma ShutDown(cfg: Config, s: Sup, ref: Ref, reason: Reason, now: Time)
    requires Inv(cfg, s) && Shut(s) && s.stopping
    ensures Terminate(cfg, s, ref, reason, now).Done? && Quieter(s, Terminate(cfg, s, ref, reason, now).value)
  {
    NoRestartOutcome(cfg, s, ref, reason, now);
    ErasedIsFewer(s.children, ref);
  }

  lemma ShutStopOne(s: Sup, spec: nat)
    requires Shut(s) && s.stopping
    ensures StopChild(s, spec) == Done(s)
  {
    assert HaltSpec(s.children, spec) == s.children;
  }

  lemma ShutDelete(cfg: Config, s: Sup, spec: nat)
    requires Inv(cfg, s) && Shut(s) && s.stopping
    ensures DeleteChild(s, spec).Done? && Quieter(s, DeleteChild(s, spec).value)
  {
    ShutStopOne(s, spec);
    OtherSpecsIsFewer(s.children, spec);
    DeleteShuts(cfg, s, spec);
  }

  // A stopped supervisor never throws, never spawns, and only loses children.
  lemma ShutStep(cfg: Config, s: Sup, a: Action)
    requires Inv(cfg, s) && Shut(s) && s.stopping && Allowed(cfg, s, a) && NoStarts(a)
    ensures Step(cfg, s, a).Done? && Quieter(s, Step(cfg, s, a).value)
  {
    match a
    case Down(ref, reason, now) => if ref == 0 { QuieterSame(s, s); } else { ShutDown(cfg, s, ref, reason, now); }
    case StopOne(spec) => ShutStopOne(s, spec); QuieterSame(s, s);
    case Delete(spec) => ShutDelete(cfg, s, spec);
    case StopSelf => QuieterSame(s, s.(selfStops := s.selfStops + 1));
    case Dies(ref) => QuieterSame(s, s.(live := s.live - {ref}));
    case SpawnedElsewhere => QuieterSame(s, s.(live := s.live + {s.nextRef}, nextRef := s.nextRef + 1));
  }

  lemma QuieterSame(s: Sup, s': Sup)
    requires Shut(s) && s.stopping
    requires s' == s.(selfStops := s'.selfStops, live := s'.live, nextRef := s'.nextRef)
    ensures Quieter(s, s')
  {
    SubsequenceOfSelf(s.children);
  }

  // Once a supervisor has stopped and every child left is suppressed and stopping: whatever signals
  // arrive and whoever stops or deletes children, nothing fails, no child is spawned, no restart is
  // decided, no group is in progress, and the children only become fewer.
  lemma {:induction false} NothingSpawnsOnceShut(cfg: Config, states: seq<Sup>, actions: seq<Action>, i: nat, j: nat)
    requires IsRun(cfg, states, actions) && Inv(cfg, states[0]) && i <= j <= |actions|
    requires states[i].stopping && Shut(states[i]) && forall k :: i <= k < j ==> NoStarts(actions[k])
    ensures Quieter(states[i], states[j])
    decreases j
  {
    if i == j {
      SubsequenceOfSelf(states[i].children);
    } else {
      NothingSpawnsOnceShut(cfg, states, actions, i, j - 1);
      ShutAtStep(cfg, states, actions, j - 1);
      QuieterTransitive(states[i], states[j - 1], states[j]);
    }
  }

  lemma ShutAtStep(cfg: Config, states: seq<Sup>, actions: seq<Action>, k: nat)
    requires IsRun(cfg, states, actions) && Inv(cfg, states[0]) && k < |actions|
    requires states[k].stopping && Shut(states[k]) && NoStarts(actions[k])
    ensures Quieter(states[k], states[k + 1])
  {
    RunKeepsInv(cfg, states, actions, k);
    assert states[k + 1] == After(Step(cfg, states[k], actions[k]));
    ShutStep(cfg, states[k], actions[k]);
  }

  // Without exceptions every stop is such a moment, whether requested or because restarts came too
  // often, even in the middle of a group.
  lemma NothingSpawnsAfterStop(cfg: Config, states: seq<Sup>, actions: seq<Action>, i: nat, j: nat)
    requires IsCalmRun(cfg, states, actions) && RunInv(cfg, states[0])
    requires i <= j <= |actions| && states[i].stopping
    ensures Quieter(states[i], states[j])
    decreases j
  {
    RunKeepsRunInv(cfg, states, actions, i);
    CalmRunIsRun(cfg, states, actions);
    forall k | i <= k < j
      ensures NoStarts(actions[k])
    {
      StaysStopped(cfg, states, actions, i, k);
      StepOf(cfg, states, actions, k);
    }
    NothingSpawnsOnceShut(cfg, states, actions, i, j);
  }

  lemma {:induction false} StaysStopped(cfg: Config, states: seq<Sup>, actions: seq<Action>, i: nat, k: nat)
    requires IsCalmRun(cfg, states, actions) && RunInv(cfg, states[0]) && i <= k <= |actions| && states[i].stopping
    ensures states[k].stopping
    decreases k
  {
    if i < k {
      StaysStopped(cfg, states, actions, i, k - 1);
      StoppedAtStep(cfg, states, actions, k - 1);
    }
  }

  lemma StoppedAtStep(cfg: Config, states: seq<Sup>, actions: seq<Action>, k: nat)
    requires IsCalmRun(cfg, states, actions) && RunInv(cfg, states[0]) && k < |actions| && states[k].stopping
    ensures states[k + 1].stopping
  {
    RunKeepsRunInv(cfg, states, actions, k);
    StepOf(cfg, states, actions, k);
    CalmStepStaysStopped(cfg, states[k], actions[k], states[k + 1]);
  }

  lemma CalmStepStaysStopped(cfg: Config, s: Sup, a: Action, s': Sup)
    requires RunInv(cfg, s) && s.stopping && Allowed(cfg, s, a) && Calm(s, a) && Step(cfg, s, a) == Done(s')
    ensures s'.stopping
  {
    ShutStep(cfg, s, a);
  }

  lemma CalmRunIsRun(cfg: Config, states: seq<Sup>, actions: seq<Action>)
    requires IsCalmRun(cfg, states, actions)
    ensures IsRun(cfg, states, actions)
  {
  }

  // A stop, handled or failing, shuts the supervisor exactly when it is handled, or when it fails
  // with no group in progress and all children after the one that had gone are already stopping and
  // suppressed.
  lemma StopShutsExactly(cfg: Config, s: Sup)
    requires Inv(cfg, s) && !s.stopping
    ensures After(Stop(s)).stopping
    ensures Shut(After(Stop(s))) <==>
              || Stop(s).Done?
              || (s.group.None? &&
                  forall k :: GoneAt(s) < k < |s.children| ==> s.children[k].child.stopping && s.children[k].child.suppress)
  {
    if Stop(s).Threw? {
      var left, g := Stop(s).left, GoneAt(s);
      assert forall k :: g < k < |s.children| ==> left.children[k] == s.children[k];
      assert forall k :: 0 <= k <= g ==> left.children[k] == Halted(s.children[k], true);
    }
  }

  // The first child that has gone, if any.
  function GoneAt(s: Sup): int {
    match FirstGone(s, AllAsked(s.children), 0)
    case None => |s.children|
    case Some(k) => k
  }

  lemma StepOf(cfg: Config, states: seq<Sup>, actions: seq<Action>, i: nat)
    requires IsCalmRun(cfg, states, actions) && i < |actions|
    ensures SpecsKnown(cfg, states[i]) && Allowed(cfg, states[i], actions[i]) && Calm(states[i], actions[i])
    ensures Step(cfg, states[i], actions[i]) == Done(states[i + 1])
  {
  }

  // ----- one whole group restart

  // The rows no signal was about.
  function Survivors(rows: seq<Row>, refs: seq<Ref>): seq<Row> {
    if refs == [] then rows else Others(Survivors(rows, refs[..|refs| - 1]), refs[|refs| - 1])
  }

  // A signal about `ref` during a group takes `s` to `s'`.
  ghost predicate Signalled(cfg: Config, s: Sup, ref: Ref, s': Sup) {
    s.group.Some? && SpecsKnown(cfg, s) && s' == GroupStop(cfg, s, ref)
  }

  lemma GroupContinues(cfg: Config, s: Sup, ref: Ref, s': Sup)
    requires RunInv(cfg, s) && Signalled(cfg, s, ref, s') && s'.group.Some?
    ensures RunInv(cfg, s') && s'.group.value.plan == s.group.value.plan && Kept(s') == Others(Kept(s), ref)
    ensures s'.nextRef == s.nextRef && s'.nextOrder == s.nextOrder
  {
    GroupStopKeepsInv(cfg, s, ref);
    if Without(s.group.value.pending, ref) == [] {
      GroupStopEnds(cfg, s, ref);
    } else {
      GroupStopWaits(cfg, s, ref);
    }
  }

  lemma GroupFinishes(cfg: Config, s: Sup, ref: Ref, s': Sup)
    requires RunInv(cfg, s) && Signalled(cfg, s, ref, s') && s'.group.None?
    ensures s'.children == Others(Kept(s), ref) + NewRows(Restarted(cfg, s.group.value.plan), s.nextRef, s.nextOrder)
  {
    if Without(s.group.value.pending, ref) == [] {
      GroupStopEnds(cfg, s, ref);
    } else {
      GroupStopWaits(cfg, s, ref);
    }
  }

  // The children that signals have been about, in order.
  function Signals(actions: seq<Action>): seq<Ref> {
    if actions == [] then []
    else
      var last := actions[|actions| - 1];
      Signals(actions[..|actions| - 1]) + if last.Down? && last.ref != 0 then [last.ref] else []
  }

  // A run that begins with a group in progress and ends with the action that ends it: signals,
  // actors leaving the registry, references given out elsewhere, in any order; no stop.
  ghost predicate IsGroupRun(cfg: Config, states: seq<Sup>, actions: seq<Action>) {
    && actions != [] && IsCalmRun(cfg, states, actions)
    && (forall k :: 0 <= k < |actions| ==> states[k].group.Some? && !actions[k].StopSelf?)
    && states[|actions|].group.None?
  }

  lemma GroupStepContinues(cfg: Config, s: Sup, a: Action, s': Sup)
    requires RunInv(cfg, s) && s.group.Some? && Allowed(cfg, s, a) && Calm(s, a) && !a.StopSelf?
    requires Step(cfg, s, a) == Done(s') && s'.group.Some?
    ensures RunInv(cfg, s') && s'.group.value.plan == s.group.value.plan && s'.nextOrder == s.nextOrder
    ensures Kept(s') == if a.Down? && a.ref != 0 then Others(Kept(s), a.ref) else Kept(s)
  {
    StepKeepsRunInv(cfg, s, a);
    if a.Down? {
      if a.ref != 0 { GroupContinues(cfg, s, a.ref, s'); }
    } else {
      WorldKeepsGroup(cfg, s, s');
    }
  }

  lemma GroupStepFinishes(cfg: Config, s: Sup, a: Action, s': Sup)
    requires RunInv(cfg, s) && s.group.Some? && Allowed(cfg, s, a) && Calm(s, a) && !a.StopSelf?
    requires Step(cfg, s, a) == Done(s') && s'.group.None?
    ensures a.Down? && a.ref != 0
    ensures s'.children == Others(Kept(s), a.ref) + NewRows(Restarted(cfg, s.group.value.plan), s.nextRef, s.nextOrder)
  {
    GroupFinishes(cfg, s, a.ref, s');
  }

  // `k` steps into a group: the kept children are those no signal was about.
  lemma {:induction false} GroupKeeps(cfg: Config, states: seq<Sup>, actions: seq<Action>, k: nat)
    requires IsGroupRun(cfg, states, actions) && k < |actions| && RunInv(cfg, states[0])
    ensures states[k].group.Some? && RunInv(cfg, states[k])
    ensures states[0].group.Some? && states[k].group.value.plan == states[0].group.value.plan
    ensures Kept(states[k]) == Survivors(Kept(states[0]), Signals(actions[..k]))
    ensures states[k].nextOrder == states[0].nextOrder
  {
    if k == 0 {
      assert actions[..0] == [];
    } else {
      GroupKeeps(cfg, states, actions, k - 1);
      StepOf(cfg, states, actions, k - 1);
      GroupStepContinues(cfg, states[k - 1], actions[k - 1], states[k]);
      SurvivorsOfMore(Kept(states[0]), actions, k);
    }
  }

  lemma SurvivorsOfMore(rows: seq<Row>, actions: seq<Action>, k: nat)
    requires 0 < k <= |actions|
    ensures var a, before := actions[k - 1], Survivors(rows, Signals(actions[..k - 1]));
            Survivors(rows, Signals(actions[..k])) == if a.Down? && a.ref != 0 then Others(before, a.ref) else before
  {
    var before, a := Signals(actions[..k - 1]), actions[k - 1];
    assert actions[..k][..k - 1] == actions[..k - 1];
    if a.Down? && a.ref != 0 {
      assert (before + [a.ref])[..|before|] == before;
    } else {
      assert before + [] == before;
    }
  }

  // From the beginning of a group to its end.
  lemma GroupRunOutcome(cfg: Config, states: seq<Sup>, actions: seq<Action>)
    requires IsGroupRun(cfg, states, actions) && RunInv(cfg, states[0])
    ensures states[0].group.Some?
    ensures states[|actions|].children
         == Survivors(Kept(states[0]), Signals(actions))
          + NewRows(Restarted(cfg, states[0].group.value.plan), states[|actions| - 1].nextRef, states[0].nextOrder)
  {
    var n := |actions|;
    GroupKeeps(cfg, states, actions, n - 1);
    StepOf(cfg, states, actions, n - 1);
    GroupStepFinishes(cfg, states[n - 1], actions[n - 1], states[n]);
    SurvivorsOfMore(Kept(states[0]), actions, n);
    assert actions[..n] == actions;
  }

  // The outcome of a whole group restart. A child fails; siblings stop, others die, actors come and
  // go, and signals arrive, in any order, until the group ends. Left are the siblings it did not plan
  // and that no signal was about, and after them new children for the failed one and for its planned
  // siblings that are not temporary: with their specifications and arguments, in their old order.
  lemma GroupRestartOutcome(cfg: Config, s: Sup, i: nat, reason: Reason, now: Time, states: seq<Sup>, actions: seq<Action>)
    requires RunInv(cfg, s) && s.group.None? && i < |s.children|
    requires cfg.strategy == OneForAll || cfg.strategy == RestForOne
    requires !s.children[i].child.suppress && ShouldRestart(PolicyOf(cfg, s.children[i].child.spec), reason)
    requires IsGroupRun(cfg, states, actions) && Terminate(cfg, s, s.children[i].ref, reason, now) == Done(states[0])
    ensures var row, m := s.children[i], PlanStart(cfg, i);
            var rest := s.children[..i] + s.children[i + 1..];
            var siblings := Items(rest[m..]);
            && (forall k :: 0 <= k < |siblings| ==> siblings[k].child.spec < |cfg.specs|)
            && states[|actions|].children
               == Survivors(rest[..m], Signals(actions))
                + NewRows([PlanItem(row.ref, row.child, reason)] + NotTemporary(cfg, siblings),
                          states[|actions| - 1].nextRef, states[0].nextOrder)
  {
    assert states[0].group.Some?;
    FailureBegins(cfg, s, i, reason, now, states[0]);
    GroupRunOutcome(cfg, states, actions);
  }

  // The failure of the child in row `i` has begun a group: what it keeps, and what it will restart.
  lemma FailureBegins(cfg: Config, s: Sup, i: nat, reason: Reason, now: Time, s': Sup)
    requires RunInv(cfg, s) && s.group.None? && i < |s.children|
    requires cfg.strategy == OneForAll || cfg.strategy == RestForOne
    requires !s.children[i].child.suppress && ShouldRestart(PolicyOf(cfg, s.children[i].child.spec), reason)
    requires Terminate(cfg, s, s.children[i].ref, reason, now) == Done(s') && s'.group.Some?
    ensures RunInv(cfg, s')
    ensures var row, m, rest := s.children[i], PlanStart(cfg, i), s.children[..i] + s.children[i + 1..];
            var siblings := Items(rest[m..]);
            && (forall k :: 0 <= k < |siblings| ==> siblings[k].child.spec < |cfg.specs|)
            && Kept(s') == rest[..m]
            && Restarted(cfg, s'.group.value.plan) == [PlanItem(row.ref, row.child, reason)] + NotTemporary(cfg, siblings)
  {
    TerminateKeepsRunInv(cfg, s, s.children[i].ref, reason, now);
    FailureOutcome(cfg, s, i, reason, now);
    InGroupAfterFailure(cfg, s, i, reason, s');
    RestKnown(cfg, s, i);
    PlanRestarted(cfg, s.children[i], reason, (s.children[..i] + s.children[i + 1..])[PlanStart(cfg, i)..]);
  }

  lemma RestKnown(cfg: Config, s: Sup, i: nat)
    requires SpecsKnown(cfg, s) && i < |s.children|
    ensures var siblings := (s.children[..i] + s.children[i + 1..])[PlanStart(cfg, i)..];
            forall k :: 0 <= k < |siblings| ==> siblings[k].child.spec < |cfg.specs|
  {
  }

  lemma InGroupAfterFailure(cfg: Config, s: Sup, i: nat, reason: Reason, s': Sup)
    requires i < |s.children| && PlanStart(cfg, i) < |s.children| && GroupInv(cfg, s') && s'.group.Some?
    requires AfterFailure(cfg, s, i, reason, s')
    ensures var row, m, rest := s.children[i], PlanStart(cfg, i), s.children[..i] + s.children[i + 1..];
            s'.group.value.plan == PlanFor(row.ref, row.child, reason, rest[m..]) && Kept(s') == rest[..m]
  {
  }

  lemma PlanRestarted(cfg: Config, row: Row, reason: Reason, siblings: seq<Row>)
    requires row.child.spec < |cfg.specs| && ShouldRestart(PolicyOf(cfg, row.child.spec), reason)
    requires forall k :: 0 <= k < |siblings| ==> siblings[k].child.spec < |cfg.specs|
    ensures Restarted(cfg, PlanFor(row.ref, row.child, reason, siblings))
         == [PlanItem(row.ref, row.child, reason)] + NotTemporary(cfg, Items(siblings))
  {
    var plan := PlanFor(row.ref, row.child, reason, siblings);
    assert plan[1..] == Items(siblings);
    RestartedSiblings(cfg, plan[1..]);
  }
}
