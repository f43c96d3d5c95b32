/**
  The restart engine of a supervisor, as functions on its state.
*/
module Supervisors {
  import opened ActorControl
  import opened Collections

  type Args(==, !new)

  datatype Policy = Permanent | Transient | Temporary
  datatype Strategy = OneForOne | OneForAll | RestForOne | SimpleOneForOne

  datatype Spec = Spec(policy: Policy, args: Args)
  datatype Config = Config(strategy: Strategy, maxRestarts: nat, within: Time, specs: seq<Spec>)

  datatype Child = Child(spec: nat, order: nat, args: Args, stopping: bool, suppress: bool)
  datatype Row = Row(ref: Ref, child: Child)

  datatype PlanItem = PlanItem(ref: Ref, child: Child, reason: Reason)
  datatype Group = Group(plan: seq<PlanItem>, pending: seq<Ref>)

  // A restart decision: when, and whether it was allowed.
  datatype Decision = Decision(time: Time, accepted: bool)

  // What the supervisor object holds, together with what it sees of the scheduler: which actors are
  // registered and which reference the next spawn gets. The ordered map of children is the sequence
  // of its entries in key order.
  datatype Sup = Sup(
    children: seq<Row>,
    times: seq<Time>,
    group: Option<Group>,
    nextOrder: nat,
    stopping: bool,
    decisions: seq<Decision>,   // every restart decision so far
    selfStops: nat,             // exit signals the supervisor has sent itself
    live: set<Ref>,             // the scheduler's registry
    nextRef: Ref)

  // `Threw` stands for the exception of asking the scheduler to stop an actor it no longer has;
  // `left` is how it leaves the supervisor.
  datatype Outcome<T> = Done(value: T) | Threw(left: T)

  function After<T>(outcome: Outcome<T>): T {
    match outcome
    case Done(value) => value
    case Threw(left) => left
  }

  // ----- the ordered map of children

  function Refs(rows: seq<Row>): seq<Ref> {
    seq(|rows|, i requires 0 <= i < |rows| => rows[i].ref)
  }

  ghost predicate RefsRise(rows: seq<Row>) {
    forall i, j :: 0 <= i < j < |rows| ==> rows[i].ref < rows[j].ref
  }

  function Specs(rows: seq<Row>): seq<nat> {
    seq(|rows|, i requires 0 <= i < |rows| => rows[i].child.spec)
  }

  function Find(rows: seq<Row>, ref: Ref): (i: Option<nat>)
    ensures i.Some? ==> i.value < |rows| && rows[i.value].ref == ref
    ensures i.None? ==> forall k :: 0 <= k < |rows| ==> rows[k].ref != ref
  {
    if rows == [] then None
    else if rows[|rows| - 1].ref == ref then Some(|rows| - 1)
    else Find(rows[..|rows| - 1], ref)
  }

  function FindSpec(rows: seq<Row>, spec: nat): (i: Option<nat>)
    ensures i.Some? ==> i.value < |rows| && rows[i.value].child.spec == spec
    ensures i.Some? ==> forall k :: 0 <= k < i.value ==> rows[k].child.spec != spec
    ensures i.None? ==> forall k :: 0 <= k < |rows| ==> rows[k].child.spec != spec
  {
    if rows == [] then None
    else if rows[0].child.spec == spec then Some(0)
    else match FindSpec(rows[1..], spec)
      case Some(i) => Some(i + 1)
      case None => None
  }

  // `children_[ref] = entry` on the ordered map.
  function Put(rows: seq<Row>, row: Row): seq<Row> {
    if rows == [] || rows[|rows| - 1].ref < row.ref then rows + [row]
    else if rows[|rows| - 1].ref == row.ref then rows[..|rows| - 1] + [row]
    else Put(rows[..|rows| - 1], row) + [rows[|rows| - 1]]
  }

  function Erase(rows: seq<Row>, ref: Ref): seq<Row> {
    match Find(rows, ref)
    case None => rows
    case Some(i) => rows[..i] + rows[i + 1..]
  }

  // ----- spawning

  function Spawn(s: Sup, spec: nat, args: Args): Sup {
    s.(children := Put(s.children, Row(s.nextRef, Child(spec, s.nextOrder, args, false, false))),
       nextOrder := s.nextOrder + 1,
       live := s.live + {s.nextRef},
       nextRef := s.nextRef + 1)
  }

  function StartChild(cfg: Config, s: Sup, spec: nat, args: Args): Sup {
    if cfg.strategy != SimpleOneForOne && FindSpec(s.children, spec).Some? then s
    else Spawn(s, spec, args)
  }

  function Respawn(cfg: Config, s: Sup, child: Child): Sup {
    StartChild(cfg, s, child.spec, child.args)
  }

  // ----- stopping

  predicate CanStop(s: Sup, row: Row) {
    row.child.stopping || row.ref in s.live
  }

  // Rows as they are after a stop request, with suppression set or cleared.
  function Halted(row: Row, suppress: bool): Row {
    row.(child := row.child.(stopping := true, suppress := suppress))
  }

  function HaltAll(rows: seq<Row>): seq<Row> {
    seq(|rows|, i requires 0 <= i < |rows| => Halted(rows[i], true))
  }

  // The first of the children asked to stop, from row `k` on, that has gone.
  function FirstGone(s: Sup, asked: seq<bool>, k: nat): (gone: Option<nat>)
    requires |asked| == |s.children| && k <= |s.children|
    ensures match gone
            case Some(i) =>
              && k <= i < |s.children| && asked[i] && !CanStop(s, s.children[i])
              && forall j :: k <= j < i && asked[j] ==> CanStop(s, s.children[j])
            case None => forall j :: k <= j < |s.children| && asked[j] ==> CanStop(s, s.children[j])
    decreases |s.children| - k
  {
    if k == |s.children| then None
    else if asked[k] && !CanStop(s, s.children[k]) then Some(k)
    else FirstGone(s, asked, k + 1)
  }

  // Those asked, up to row `k`, are stopping; the others are as they were.
  function HaltUpTo(rows: seq<Row>, asked: seq<bool>, k: nat, suppress: bool): seq<Row>
    requires |asked| == |rows|
  {
    seq(|rows|, i requires 0 <= i < |rows| => if i <= k && asked[i] then Halted(rows[i], suppress) else rows[i])
  }

  // What an exception leaves: the children asked are stopping up to the first that has gone.
  function LeftAsking(s: Sup, asked: seq<bool>, suppress: bool): Sup
    requires |asked| == |s.children|
  {
    match FirstGone(s, asked, 0)
    case None => s
    case Some(k) => s.(children := HaltUpTo(s.children, asked, k, suppress))
  }

  function AllAsked(rows: seq<Row>): seq<bool> {
    seq(|rows|, _ => true)
  }

  // A stop that fails half-way has set the flag and not ended the group.
  function Stop(s: Sup): Outcome<Sup> {
    if s.stopping then Done(s.(selfStops := s.selfStops + 1))
    else if exists k :: 0 <= k < |s.children| && !CanStop(s, s.children[k]) then
      Threw(LeftAsking(s, AllAsked(s.children), true).(stopping := true))
    else Done(s.(stopping := true, children := HaltAll(s.children), group := None, selfStops := s.selfStops + 1))
  }

  // ----- restart intensity

  function Recent(times: seq<Time>, now: Time, within: Time): seq<Time> {
    if times == [] then []
    else Recent(times[..|times| - 1], now, within) +
         if now - times[|times| - 1] > within then [] else [times[|times| - 1]]
  }

  // Whether a restart is allowed now; if not, the supervisor stops.
  function Register(cfg: Config, s: Sup, now: Time): Outcome<(Sup, bool)> {
    var times := if cfg.maxRestarts == 0 then s.times else Recent(s.times, now, cfg.within) + [now];
    var accepted := cfg.maxRestarts != 0 && |times| <= cfg.maxRestarts;
    var decided := s.(times := times, decisions := s.decisions + [Decision(now, accepted)]);
    if accepted then Done((decided, true))
    else match Stop(decided)
      case Threw(left) => Threw((left, false))
      case Done(stopped) => Done((stopped, false))
  }

  // ----- termination of a child

  function ShouldRestart(policy: Policy, reason: Reason): bool {
    match policy
    case Permanent => true
    case Transient => reason != Normal
    case Temporary => false
  }

  predicate SpecsKnown(cfg: Config, s: Sup) {
    && (forall k :: 0 <= k < |s.children| ==> s.children[k].child.spec < |cfg.specs|)
    && (s.group.Some? ==> forall k :: 0 <= k < |s.group.value.plan| ==> s.group.value.plan[k].child.spec < |cfg.specs|)
  }

  function PolicyOf(cfg: Config, spec: nat): Policy
    requires spec < |cfg.specs|
  {
    cfg.specs[spec].policy
  }

  function Terminate(cfg: Config, s: Sup, ref: Ref, reason: Reason, now: Time): Outcome<Sup>
    requires SpecsKnown(cfg, s)
  {
    if s.group.Some? then Done(GroupStop(cfg, s, ref))
    else match Find(s.children, ref)
      case None => Done(s)
      case Some(i) =>
        var child := s.children[i].child;
        var erased := s.(children := s.children[..i] + s.children[i + 1..]);
        if child.suppress || !ShouldRestart(PolicyOf(cfg, child.spec), reason) then Done(erased)
        else RestartFailed(cfg, erased, ref, child, reason, now)
  }

  // A failed child, already off the map, is to be restarted.
  function RestartFailed(cfg: Config, s: Sup, ref: Ref, child: Child, reason: Reason, now: Time): Outcome<Sup>
    requires SpecsKnown(cfg, s) && child.spec < |cfg.specs|
  {
    RegisterKnown(cfg, s, now);
    match Register(cfg, s, now)
    case Threw((left, _)) => Threw(left)
    case Done((decided, false)) => Done(decided)
    case Done((decided, true)) =>
      if cfg.strategy == OneForOne || cfg.strategy == SimpleOneForOne then Done(Respawn(cfg, decided, child))
      else BeginGroup(cfg, decided, ref, child, reason)
  }

  lemma RegisterKnown(cfg: Config, s: Sup, now: Time)
    requires SpecsKnown(cfg, s)
    ensures Register(cfg, s, now).Done? ==>
              var (s', accepted) := Register(cfg, s, now).value;
              SpecsKnown(cfg, s') && (accepted ==> s'.children == s.children)
  {
  }

  // ----- restart groups

  // Whether a sibling is restarted along with the failed child.
  predicate Planned(cfg: Config, failed: Child, row: Row) {
    !(cfg.strategy == RestForOne && row.child.order <= failed.order)
  }

  function PlannedItems(cfg: Config, failed: Child, rows: seq<Row>): seq<PlanItem> {
    if rows == [] then []
    else
      var row := rows[|rows| - 1];
      PlannedItems(cfg, failed, rows[..|rows| - 1]) +
      if Planned(cfg, failed, row) then [PlanItem(row.ref, row.child, Stopped)] else []
  }

  function PlannedRefs(cfg: Config, failed: Child, rows: seq<Row>): seq<Ref> {
    if rows == [] then []
    else
      var row := rows[|rows| - 1];
      PlannedRefs(cfg, failed, rows[..|rows| - 1]) + if Planned(cfg, failed, row) then [row.ref] else []
  }

  function HaltPlanned(cfg: Config, failed: Child, rows: seq<Row>): seq<Row> {
    seq(|rows|, i requires 0 <= i < |rows| =>
      if Planned(cfg, failed, rows[i]) then Halted(rows[i], false) else rows[i])
  }

  function PlannedAsked(cfg: Config, failed: Child, rows: seq<Row>): seq<bool> {
    seq(|rows|, i requires 0 <= i < |rows| => Planned(cfg, failed, rows[i]))
  }

  // A group that could not ask all planned siblings to stop waits for those it did ask, the one
  // that has gone among them.
  function LeftBeginning(cfg: Config, s: Sup, failed: Child, plan: seq<PlanItem>): Sup {
    var asked := PlannedAsked(cfg, failed, s.children);
    match FirstGone(s, asked, 0)
    case None => s
    case Some(k) =>
      s.(group := Some(Group(plan, PlannedRefs(cfg, failed, s.children[..k + 1]))),
         children := HaltUpTo(s.children, asked, k, false))
  }

  function BeginGroup(cfg: Config, s: Sup, ref: Ref, failed: Child, reason: Reason): Outcome<Sup>
    requires SpecsKnown(cfg, s) && failed.spec < |cfg.specs|
  {
    if exists k :: 0 <= k < |s.children| && Planned(cfg, failed, s.children[k]) && !CanStop(s, s.children[k]) then
      Threw(LeftBeginning(cfg, s, failed, [PlanItem(ref, failed, reason)] + PlannedItems(cfg, failed, s.children)))
    else
      var group := Group([PlanItem(ref, failed, reason)] + PlannedItems(cfg, failed, s.children),
                         PlannedRefs(cfg, failed, s.children));
      var begun := s.(group := Some(group), children := HaltPlanned(cfg, failed, s.children));
      PlannedItemsKnown(cfg, failed, s.children);
      if group.pending == [] then Done(Finalize(cfg, begun)) else Done(begun)
  }

  lemma PlannedItemsKnown(cfg: Config, failed: Child, rows: seq<Row>)
    requires forall k :: 0 <= k < |rows| ==> rows[k].child.spec < |cfg.specs|
    ensures forall k :: 0 <= k < |PlannedItems(cfg, failed, rows)| ==>
              PlannedItems(cfg, failed, rows)[k].child.spec < |cfg.specs|
  {
  }

  function Without(refs: seq<Ref>, ref: Ref): seq<Ref> {
    if refs == [] then []
    else if refs[0] == ref then refs[1..]
    else [refs[0]] + Without(refs[1..], ref)
  }

  function GroupStop(cfg: Config, s: Sup, ref: Ref): Sup
    requires SpecsKnown(cfg, s) && s.group.Some?
  {
    var pending := Without(s.group.value.pending, ref);
    var stopped := s.(children := Erase(s.children, ref), group := Some(s.group.value.(pending := pending)));
    if pending == [] then Finalize(cfg, stopped) else stopped
  }

  function RespawnAll(cfg: Config, s: Sup, plan: seq<PlanItem>): Sup
    requires forall k :: 0 <= k < |plan| ==> plan[k].child.spec < |cfg.specs|
    decreases |plan|
  {
    if plan == [] then s
    else
      var respawned := if ShouldRestart(PolicyOf(cfg, plan[0].child.spec), plan[0].reason) then Respawn(cfg, s, plan[0].child) else s;
      RespawnAll(cfg, respawned, plan[1..])
  }

  function Finalize(cfg: Config, s: Sup): Sup
    requires SpecsKnown(cfg, s) && s.group.Some?
  {
    RespawnAll(cfg, s.(group := None), s.group.value.plan)
  }

  // ----- administration

  function HaltSpec(rows: seq<Row>, spec: nat): seq<Row> {
    seq(|rows|, i requires 0 <= i < |rows| => if rows[i].child.spec == spec then Halted(rows[i], true) else rows[i])
  }

  function SpecAsked(rows: seq<Row>, spec: nat): seq<bool> {
    seq(|rows|, i requires 0 <= i < |rows| => rows[i].child.spec == spec)
  }

  function StopChild(s: Sup, spec: nat): Outcome<Sup> {
    if exists k :: 0 <= k < |s.children| && s.children[k].child.spec == spec && !CanStop(s, s.children[k]) then
      Threw(LeftAsking(s, SpecAsked(s.children, spec), true))
    else Done(s.(children := HaltSpec(s.children, spec)))
  }

  function OtherSpecs(rows: seq<Row>, spec: nat): seq<Row> {
    if rows == [] then []
    else
      var row := rows[|rows| - 1];
      OtherSpecs(rows[..|rows| - 1], spec) + if row.child.spec == spec then [] else [row]
  }

  function DeleteChild(s: Sup, spec: nat): Outcome<Sup> {
    match StopChild(s, spec)
    case Threw(left) => Threw(left)
    case Done(halted) => Done(halted.(children := OtherSpecs(halted.children, spec)))
  }

  function Unsuppress(rows: seq<Row>, spec: nat): seq<Row> {
    seq(|rows|, i requires 0 <= i < |rows| =>
      if rows[i].child.spec == spec then rows[i].(child := rows[i].child.(suppress := false)) else rows[i])
  }

  function RefsOf(rows: seq<Row>, spec: nat): seq<Ref> {
    if rows == [] then []
    else
      var row := rows[|rows| - 1];
      RefsOf(rows[..|rows| - 1], spec) + if row.child.spec == spec then [row.ref] else []
  }

  function RestartOne(cfg: Config, s: Sup, spec: nat, ref: Ref): Outcome<Sup> {
    match Find(s.children, ref)
    case None => Threw(s)
    case Some(i) =>
      var row := s.children[i];
      if row.child.stopping then Done(StartChild(cfg, s, spec, row.child.args))
      else
        var asked := s.(children := s.children[i := Halted(row, false)]);
        if ref !in s.live then Threw(asked) else Done(asked)
  }

  function RestartEach(cfg: Config, s: Sup, spec: nat, refs: seq<Ref>): Outcome<Sup>
    decreases |refs|
  {
    if refs == [] then Done(s)
    else match RestartOne(cfg, s, spec, refs[0])
      case Threw(left) => Threw(left)
      case Done(next) => RestartEach(cfg, next, spec, refs[1..])
  }

  function RestartChild(cfg: Config, s: Sup, spec: nat): Outcome<Sup> {
    RestartEach(cfg, s.(children := Unsuppress(s.children, spec)), spec, RefsOf(s.children, spec))
  }

  // ----- what can happen to a supervisor

  datatype Action =
    | Down(ref: Ref, reason: Reason, now: Time)       // a termination signal is handled
    | StopSelf
    | Start(spec: nat, args: Args)
    | StopOne(spec: nat)
    | Restart(spec: nat)
    | Delete(spec: nat)
    | Dies(ref: Ref)                                  // an actor leaves the registry
    | SpawnedElsewhere                                // the scheduler gives out a reference

  predicate Allowed(cfg: Config, s: Sup, a: Action) {
    match a
    case Down(_, _, now) => s.decisions == [] || s.decisions[|s.decisions| - 1].time <= now
    case Start(spec, _) => spec < |cfg.specs|
    case StopOne(spec) => spec < |cfg.specs|
    case Restart(spec) => spec < |cfg.specs|
    case Delete(spec) => spec < |cfg.specs|
    case _ => true
  }

  function Step(cfg: Config, s: Sup, a: Action): Outcome<Sup>
    requires SpecsKnown(cfg, s) && Allowed(cfg, s, a)
  {
    match a
    case Down(ref, reason, now) => if ref == 0 then Done(s) else Terminate(cfg, s, ref, reason, now)
    case StopSelf => Stop(s)
    case Start(spec, args) => Done(StartChild(cfg, s, spec, args))
    case StopOne(spec) => StopChild(s, spec)
    case Restart(spec) => RestartChild(cfg, s, spec)
    case Delete(spec) => DeleteChild(s, spec)
    case Dies(ref) => Done(s.(live := s.live - {ref}))
    case SpawnedElsewhere => Done(s.(live := s.live + {s.nextRef}, nextRef := s.nextRef + 1))
  }

  // ----- the shape every reachable state has

  // Map order is start order: references and start orders both rise along the map.
  ghost predicate Ordered(s: Sup) {
    && (forall i :: 0 <= i < |s.children| ==> 0 < s.children[i].ref < s.nextRef && s.children[i].child.order < s.nextOrder)
    && (forall i, j :: 0 <= i < j < |s.children| ==>
          s.children[i].ref < s.children[j].ref && s.children[i].child.order < s.children[j].child.order)
  }

  // Unless children are dynamic, at most one of each specification is registered.
  ghost predicate OnePerSpec(cfg: Config, s: Sup) {
    cfg.strategy != SimpleOneForOne ==>
      forall i, j :: 0 <= i < j < |s.children| ==> s.children[i].child.spec != s.children[j].child.spec
  }

  ghost predicate Inv(cfg: Config, s: Sup) {
    && 0 < s.nextRef
    && SpecsKnown(cfg, s)
    && Ordered(s)
    && OnePerSpec(cfg, s)
  }

  ghost predicate Initial(s: Sup) {
    s.children == [] && s.times == [] && s.group == None && s.decisions == [] && !s.stopping && 0 < s.nextRef
  }

  // ----- facts about the map

  lemma PutLast(rows: seq<Row>, row: Row)
    requires forall k :: 0 <= k < |rows| ==> rows[k].ref < row.ref
    ensures Put(rows, row) == rows + [row]
  {
  }

  lemma {:induction false} FindAt(rows: seq<Row>, i: nat)
    requires i < |rows| && forall j, k :: 0 <= j < k < |rows| ==> rows[j].ref < rows[k].ref
    ensures Find(rows, rows[i].ref) == Some(i)
  {
  }

  // A new reference is the largest: it goes to the end of the map.
  lemma SpawnAppends(cfg: Config, s: Sup, spec: nat, args: Args)
    requires Inv(cfg, s) && spec < |cfg.specs|
    requires cfg.strategy != SimpleOneForOne ==> forall k :: 0 <= k < |s.children| ==> s.children[k].child.spec != spec
    ensures Inv(cfg, Spawn(s, spec, args))
    ensures Spawn(s, spec, args).children == s.children + [Row(s.nextRef, Child(spec, s.nextOrder, args, false, false))]
  {
    PutLast(s.children, Row(s.nextRef, Child(spec, s.nextOrder, args, false, false)));
  }

  lemma StartChildKeepsInv(cfg: Config, s: Sup, spec: nat, args: Args)
    requires Inv(cfg, s) && spec < |cfg.specs|
    ensures Inv(cfg, StartChild(cfg, s, spec, args))
    ensures StartChild(cfg, s, spec, args).group == s.group
  {
    if !(cfg.strategy != SimpleOneForOne && FindSpec(s.children, spec).Some?) {
      SpawnAppends(cfg, s, spec, args);
    }
  }

  // What neither spawning nor finding a running child touches.
  predicate SameHistory(s: Sup, s': Sup) {
    && s'.times == s.times && s'.decisions == s.decisions
    && s'.group == s.group && s'.stopping == s.stopping && s'.selfStops == s.selfStops
  }

  lemma {:induction false} RespawnAllKeepsInv(cfg: Config, s: Sup, plan: seq<PlanItem>)
    requires Inv(cfg, s) && forall k :: 0 <= k < |plan| ==> plan[k].child.spec < |cfg.specs|
    ensures Inv(cfg, RespawnAll(cfg, s, plan)) && SameHistory(s, RespawnAll(cfg, s, plan))
    decreases |plan|
  {
    if plan != [] {
      var child := plan[0].child;
      StartChildKeepsInv(cfg, s, child.spec, child.args);
      var respawned := if ShouldRestart(PolicyOf(cfg, child.spec), plan[0].reason) then Respawn(cfg, s, child) else s;
      RespawnAllKeepsInv(cfg, respawned, plan[1..]);
    }
  }

  lemma ErasedIsFewer(rows: seq<Row>, ref: Ref)
    ensures Subsequence(Erase(rows, ref), rows)
  {
    match Find(rows, ref)
    case None => SubsequenceOfSelf(rows);
    case Some(k) => SubsequenceWithout(rows, k);
  }

  lemma {:induction false} OtherSpecsIsFewer(rows: seq<Row>, spec: nat)
    ensures Subsequence(OtherSpecs(rows, spec), rows)
    decreases |rows|
  {
    if rows == [] {
      EmptySubsequence(rows);
    } else {
      var n := |rows| - 1;
      OtherSpecsIsFewer(rows[..n], spec);
      SubsequenceOfSnoc(OtherSpecs(rows[..n], spec), rows[..n], rows[n]);
      assert rows == rows[..n] + [rows[n]];
      assert OtherSpecs(rows[..n], spec) + [] == OtherSpecs(rows[..n], spec);
    }
  }

  // Fewer children in the same order, or the same ones with other flags, keep the invariant.
  lemma FewerKeepInv(cfg: Config, s: Sup, rows: seq<Row>)
    requires Inv(cfg, s) && Subsequence(rows, s.children)
    ensures Inv(cfg, s.(children := rows))
  {
  }

  // The same reference, specification, start order and arguments.
  predicate SameChild(a: Row, b: Row) {
    a.ref == b.ref && a.child.spec == b.child.spec && a.child.order == b.child.order && a.child.args == b.child.args
  }

  predicate SameChildren(rows: seq<Row>, others: seq<Row>) {
    |rows| == |others| && forall i :: 0 <= i < |rows| ==> SameChild(rows[i], others[i])
  }

  lemma FlagsKeepInv(cfg: Config, s: Sup, s': Sup)
    requires Inv(cfg, s)
    requires SameChildren(s.children, s'.children)
    requires s'.nextRef >= s.nextRef && s'.nextOrder == s.nextOrder && (s'.group == s.group || s'.group.None?)
    ensures Inv(cfg, s')
  {
  }

  lemma StopKeepsInv(cfg: Config, s: Sup)
    requires Inv(cfg, s) && Stop(s).Done?
    ensures Inv(cfg, Stop(s).value)
  {
  }

  lemma RegisterKeepsInv(cfg: Config, s: Sup, now: Time)
    requires Inv(cfg, s) && Register(cfg, s, now).Done?
    ensures Inv(cfg, Register(cfg, s, now).value.0)
    ensures var (s', accepted) := Register(cfg, s, now).value;
            if accepted then s'.children == s.children && s'.group == s.group && s'.live == s.live && s'.nextRef == s.nextRef
            else s'.stopping
  {
  }

  lemma BeginGroupKeepsInv(cfg: Config, s: Sup, ref: Ref, failed: Child, reason: Reason)
    requires Inv(cfg, s) && failed.spec < |cfg.specs| && BeginGroup(cfg, s, ref, failed, reason).Done?
    ensures Inv(cfg, BeginGroup(cfg, s, ref, failed, reason).value)
  {
    var items := PlannedItems(cfg, failed, s.children);
    var plan := [PlanItem(ref, failed, reason)] + items;
    var halted := s.(children := HaltPlanned(cfg, failed, s.children), group := None);
    FlagsKeepInv(cfg, s, halted);
    PlannedItemsKnown(cfg, failed, s.children);
    assert forall k :: 0 <= k < |plan| ==> plan[k].child.spec < |cfg.specs|;
    RespawnAllKeepsInv(cfg, halted, plan);
    if PlannedRefs(cfg, failed, s.children) != [] {
      assert BeginGroup(cfg, s, ref, failed, reason).value
          == halted.(group := Some(Group(plan, PlannedRefs(cfg, failed, s.children))));
    }
  }

  lemma LeftBeginningKeepsInv(cfg: Config, s: Sup, failed: Child, plan: seq<PlanItem>)
    requires Inv(cfg, s) && forall k :: 0 <= k < |plan| ==> plan[k].child.spec < |cfg.specs|
    ensures Inv(cfg, LeftBeginning(cfg, s, failed, plan))
    ensures var left := LeftBeginning(cfg, s, failed, plan); left.times == s.times && left.decisions == s.decisions
  {
    var left := LeftBeginning(cfg, s, failed, plan);
    if left != s {
      FlagsKeepInv(cfg, s, left.(group := None));
    }
  }

  lemma GroupStopKeepsInv(cfg: Config, s: Sup, ref: Ref)
    requires Inv(cfg, s) && s.group.Some?
    ensures Inv(cfg, GroupStop(cfg, s, ref))
  {
    ErasedIsFewer(s.children, ref);
    FewerInGroup(cfg, s, Erase(s.children, ref), Without(s.group.value.pending, ref));
  }

  lemma FewerInGroup(cfg: Config, s: Sup, rows: seq<Row>, pending: seq<Ref>)
    requires Inv(cfg, s) && s.group.Some? && Subsequence(rows, s.children)
    ensures var waiting := s.(children := rows, group := Some(s.group.value.(pending := pending)));
            Inv(cfg, waiting) && Inv(cfg, Finalize(cfg, waiting))
  {
    FewerKeepInv(cfg, s, rows);
    RespawnAllKeepsInv(cfg, s.(children := rows, group := None), s.group.value.plan);
  }

  lemma TerminateKeepsInv(cfg: Config, s: Sup, ref: Ref, reason: Reason, now: Time)
    requires Inv(cfg, s) && Terminate(cfg, s, ref, reason, now).Done?
    ensures Inv(cfg, Terminate(cfg, s, ref, reason, now).value)
  {
    if s.group.Some? {
      GroupStopKeepsInv(cfg, s, ref);
    } else if Find(s.children, ref).Some? {
      var i := Find(s.children, ref).value;
      var child := s.children[i].child;
      ErasedIsFewer(s.children, ref);
      var erased := s.(children := Erase(s.children, ref));
      FewerKeepInv(cfg, s, Erase(s.children, ref));
      if !(child.suppress || !ShouldRestart(PolicyOf(cfg, child.spec), reason)) {
        RestartFailedKeepsInv(cfg, erased, ref, child, reason, now);
      }
    }
  }

  lemma RestartFailedKeepsInv(cfg: Config, s: Sup, ref: Ref, child: Child, reason: Reason, now: Time)
    requires Inv(cfg, s) && child.spec < |cfg.specs| && RestartFailed(cfg, s, ref, child, reason, now).Done?
    ensures Inv(cfg, RestartFailed(cfg, s, ref, child, reason, now).value)
  {
    RegisterKeepsInv(cfg, s, now);
    var (decided, accepted) := Register(cfg, s, now).value;
    if accepted {
      if cfg.strategy == OneForOne || cfg.strategy == SimpleOneForOne {
        StartChildKeepsInv(cfg, decided, child.spec, child.args);
      } else {
        BeginGroupKeepsInv(cfg, decided, ref, child, reason);
      }
    }
  }

  lemma {:induction false} RestartEachKeepsInv(cfg: Config, s: Sup, spec: nat, refs: seq<Ref>)
    requires Inv(cfg, s) && spec < |cfg.specs| && RestartEach(cfg, s, spec, refs).Done?
    ensures Inv(cfg, RestartEach(cfg, s, spec, refs).value) && SameHistory(s, RestartEach(cfg, s, spec, refs).value)
    decreases |refs|
  {
    if refs != [] {
      var next := RestartOne(cfg, s, spec, refs[0]).value;
      var i := Find(s.children, refs[0]).value;
      if s.children[i].child.stopping {
        StartChildKeepsInv(cfg, s, spec, s.children[i].child.args);
      } else {
        FlagsKeepInv(cfg, s, next);
      }
      RestartEachKeepsInv(cfg, next, spec, refs[1..]);
    }
  }

  // Every call and every signal keeps the shape: in particular map order stays start order, and
  // with static children no specification ever has two registered children.
  lemma StepKeepsInv(cfg: Config, s: Sup, a: Action)
    requires Inv(cfg, s) && Allowed(cfg, s, a) && Step(cfg, s, a).Done?
    ensures Inv(cfg, Step(cfg, s, a).value)
  {
    match a
    case Down(ref, reason, now) => if ref != 0 { TerminateKeepsInv(cfg, s, ref, reason, now); }
    case StopSelf => StopKeepsInv(cfg, s);
    case Start(spec, args) => StartChildKeepsInv(cfg, s, spec, args);
    case StopOne(spec) => FlagsKeepInv(cfg, s, StopChild(s, spec).value);
    case Restart(spec) =>
      FlagsKeepInv(cfg, s, s.(children := Unsuppress(s.children, spec)));
      RestartEachKeepsInv(cfg, s.(children := Unsuppress(s.children, spec)), spec, RefsOf(s.children, spec));
    case Delete(spec) =>
      var halted := StopChild(s, spec).value;
      FlagsKeepInv(cfg, s, halted);
      OtherSpecsIsFewer(halted.children, spec);
      FewerKeepInv(cfg, halted, OtherSpecs(halted.children, spec));
    case Dies(ref) => FlagsKeepInv(cfg, s, s.(live := s.live - {ref}));
    case SpawnedElsewhere => FlagsKeepInv(cfg, s, s.(live := s.live + {s.nextRef}, nextRef := s.nextRef + 1));
  }

  // ----- exceptions leave the shape as well

  lemma RegisterLeavesInv(cfg: Config, s: Sup, now: Time)
    requires Inv(cfg, s) && Register(cfg, s, now).Threw?
    ensures Inv(cfg, Register(cfg, s, now).left.0)
  {
    FlagsKeepInv(cfg, s, Register(cfg, s, now).left.0);
  }

  lemma RestartFailedLeavesInv(cfg: Config, s: Sup, ref: Ref, child: Child, reason: Reason, now: Time)
    requires Inv(cfg, s) && child.spec < |cfg.specs| && RestartFailed(cfg, s, ref, child, reason, now).Threw?
    ensures Inv(cfg, RestartFailed(cfg, s, ref, child, reason, now).left)
  {
    if Register(cfg, s, now).Threw? {
      RegisterLeavesInv(cfg, s, now);
    } else {
      RegisterKeepsInv(cfg, s, now);
      var decided := Register(cfg, s, now).value.0;
      PlannedItemsKnown(cfg, child, decided.children);
      LeftBeginningKeepsInv(cfg, decided, child, [PlanItem(ref, child, reason)] + PlannedItems(cfg, child, decided.children));
    }
  }

  lemma TerminateLeavesInv(cfg: Config, s: Sup, ref: Ref, reason: Reason, now: Time)
    requires Inv(cfg, s) && Terminate(cfg, s, ref, reason, now).Threw?
    ensures Inv(cfg, Terminate(cfg, s, ref, reason, now).left)
  {
    ErasedIsFewer(s.children, ref);
    FewerKeepInv(cfg, s, Erase(s.children, ref));
    var child := s.children[Find(s.children, ref).value].child;
    RestartFailedLeavesInv(cfg, s.(children := Erase(s.children, ref)), ref, child, reason, now);
  }

  lemma {:induction false} RestartEachLeavesInv(cfg: Config, s: Sup, spec: nat, refs: seq<Ref>)
    requires Inv(cfg, s) && spec < |cfg.specs| && RestartEach(cfg, s, spec, refs).Threw?
    ensures Inv(cfg, RestartEach(cfg, s, spec, refs).left) && SameHistory(s, RestartEach(cfg, s, spec, refs).left)
    decreases |refs|
  {
    var one := RestartOne(cfg, s, spec, refs[0]);
    match one
    case Threw(left) =>
      FlagsKeepInv(cfg, s, left);
    case Done(next) =>
      var i := Find(s.children, refs[0]).value;
      if s.children[i].child.stopping {
        StartChildKeepsInv(cfg, s, spec, s.children[i].child.args);
      } else {
        FlagsKeepInv(cfg, s, next);
      }
      RestartEachLeavesInv(cfg, next, spec, refs[1..]);
  }

  // Whether it is handled or fails, nothing breaks the shape.
  lemma AnyStepKeepsInv(cfg: Config, s: Sup, a: Action)
    requires Inv(cfg, s) && Allowed(cfg, s, a)
    ensures Inv(cfg, After(Step(cfg, s, a)))
  {
    if Step(cfg, s, a).Done? {
      StepKeepsInv(cfg, s, a);
    } else {
      FailedStepLeavesInv(cfg, s, a);
    }
  }

  lemma FailedStepLeavesInv(cfg: Config, s: Sup, a: Action)
    requires Inv(cfg, s) && Allowed(cfg, s, a) && Step(cfg, s, a).Threw?
    ensures Inv(cfg, Step(cfg, s, a).left)
  {
    match a
    case Down(ref, reason, now) => TerminateLeavesInv(cfg, s, ref, reason, now);
    case Restart(spec) => RestartLeavesInv(cfg, s, spec);
    case StopSelf => FlagsKeepInv(cfg, s, Stop(s).left);
    case StopOne(spec) => StopOneLeavesInv(cfg, s, spec);
    case Delete(spec) => StopOneLeavesInv(cfg, s, spec);
    case _ =>
  }

  lemma RestartLeavesInv(cfg: Config, s: Sup, spec: nat)
    requires Inv(cfg, s) && spec < |cfg.specs| && RestartChild(cfg, s, spec).Threw?
    ensures Inv(cfg, RestartChild(cfg, s, spec).left)
  {
    FlagsKeepInv(cfg, s, s.(children := Unsuppress(s.children, spec)));
    RestartEachLeavesInv(cfg, s.(children := Unsuppress(s.children, spec)), spec, RefsOf(s.children, spec));
  }

  lemma StopOneLeavesInv(cfg: Config, s: Sup, spec: nat)
    requires Inv(cfg, s) && StopChild(s, spec).Threw?
    ensures Inv(cfg, StopChild(s, spec).left)
  {
    FlagsKeepInv(cfg, s, StopChild(s, spec).left);
  }

  // ----- whole runs

  // A run. After an exception it goes on from what the exception has left. For a call from outside
  // that is what happens. For a signal the code does less: the exception ends the supervisor's loop,
  // or loses the receive that was waiting, and no later signal is handled; what holds of all these
  // runs holds of those.
  ghost predicate IsRun(cfg: Config, states: seq<Sup>, actions: seq<Action>) {
    && |states| == |actions| + 1
    && forall i :: 0 <= i < |actions| ==>
         && SpecsKnown(cfg, states[i]) && Allowed(cfg, states[i], actions[i])
         && states[i + 1] == After(Step(cfg, states[i], actions[i]))
  }

  lemma {:induction false} RunKeepsInv(cfg: Config, states: seq<Sup>, actions: seq<Action>, i: nat)
    requires IsRun(cfg, states, actions) && Inv(cfg, states[0]) && i <= |actions|
    ensures Inv(cfg, states[i])
  {
    if i > 0 {
      RunKeepsInv(cfg, states, actions, i - 1);
      assert states[i - 1 + 1] == After(Step(cfg, states[i - 1], actions[i - 1]));
      AnyStepKeepsInv(cfg, states[i - 1], actions[i - 1]);
    }
  }

  predicate NoStarts(a: Action) {
    !a.Start? && !a.Restart?
  }
}
