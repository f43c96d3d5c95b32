/**
  Links and monitors of the scheduler's registry, and the signals an exit sends.

  Links are multisets held at both ends. A link is an obligation to tell the other end of the first
  exit of either; a monitor is an obligation to tell the watcher of the target's exit.
*/
module Topologies {
  import opened ActorControl
  import opened Collections

  datatype Signal = ExitSignal(target: Ref, from: Ref, reason: Reason) | DownSignal(target: Ref, from: Ref, reason: Reason)

  datatype Net = Net(
    actors: set<Ref>,
    links: map<Ref, seq<Ref>>,
    monitors: map<Ref, seq<Ref>>,
    nextRef: Ref,
    count: int,
    sent: seq<Signal>,        // every signal sent
    delivered: seq<Signal>)   // those whose target was registered

  function At(table: map<Ref, seq<Ref>>, a: Ref): seq<Ref> {
    if a in table then table[a] else []
  }

  function Push(table: map<Ref, seq<Ref>>, a: Ref, b: Ref): map<Ref, seq<Ref>> {
    table[a := At(table, a) + [b]]
  }

  function AllBut(refs: seq<Ref>, a: Ref): seq<Ref> {
    if refs == [] then []
    else AllBut(refs[..|refs| - 1], a) + if refs[|refs| - 1] == a then [] else [refs[|refs| - 1]]
  }

  function Exits(refs: seq<Ref>, from: Ref, reason: Reason): seq<Signal> {
    seq(|refs|, i requires 0 <= i < |refs| => ExitSignal(refs[i], from, reason))
  }

  function Downs(refs: seq<Ref>, from: Ref, reason: Reason): seq<Signal> {
    seq(|refs|, i requires 0 <= i < |refs| => DownSignal(refs[i], from, reason))
  }

  // The signals that reach somebody.
  function Reaching(actors: set<Ref>, signals: seq<Signal>): seq<Signal> {
    if signals == [] then []
    else
      var last := signals[|signals| - 1];
      Reaching(actors, signals[..|signals| - 1]) + if last.target in actors then [last] else []
  }

  // ----- operations; linking and monitoring fail unless both actors are registered

  predicate BothRegistered(s: Net, a: Ref, b: Ref) {
    a in s.actors && b in s.actors
  }

  function Link(s: Net, left: Ref, right: Ref): Net {
    s.(links := Push(Push(s.links, left, right), right, left))
  }

  function Monitor(s: Net, watcher: Ref, target: Ref): Net {
    s.(monitors := Push(s.monitors, target, watcher))
  }

  // Reference 0 stands for nobody. The linker need not be registered any more.
  function Spawn(s: Net, linker: Ref, watcher: Ref): Net {
    s.(actors := s.actors + {s.nextRef},
       links := if linker == 0 then s.links else Push(Push(s.links, linker, s.nextRef), s.nextRef, linker),
       monitors := if watcher == 0 then s.monitors else Push(s.monitors, s.nextRef, watcher),
       nextRef := s.nextRef + 1,
       count := s.count + 1)
  }

  // `a` struck off the lists of those on its own list, and its own list dropped.
  function Unlinked(links: map<Ref, seq<Ref>>, a: Ref): map<Ref, seq<Ref>> {
    map x | x in links && x != a :: if x in At(links, a) then AllBut(links[x], a) else links[x]
  }

  function Signals(s: Net, a: Ref, reason: Reason): seq<Signal> {
    Exits(At(s.links, a), a, reason) + Downs(At(s.monitors, a), a, reason)
  }

  function NotifyExit(s: Net, a: Ref, reason: Reason): Net {
    s.(actors := s.actors - {a},
       links := Unlinked(s.links, a),
       monitors := s.monitors - {a},
       count := s.count - 1,
       sent := s.sent + Signals(s, a, reason),
       delivered := s.delivered + Reaching(s.actors - {a}, Signals(s, a, reason)))
  }

  datatype Action =
    | Links(left: Ref, right: Ref)
    | Monitors(watcher: Ref, target: Ref)
    | Spawns(linker: Ref, watcher: Ref)
    | ActorExits(actor: Ref, reason: Reason)

  // An actor exits once, and is not linked to itself.
  predicate Enabled(s: Net, a: Action) {
    match a
    case Links(left, right) => BothRegistered(s, left, right)
    case Monitors(watcher, target) => BothRegistered(s, watcher, target)
    case Spawns(linker, watcher) => linker < s.nextRef && watcher < s.nextRef
    case ActorExits(actor, _) => actor in s.actors && actor !in At(s.links, actor)
  }

  function Step(s: Net, a: Action): Net
    requires Enabled(s, a)
  {
    match a
    case Links(left, right) => Link(s, left, right)
    case Monitors(watcher, target) => Monitor(s, watcher, target)
    case Spawns(linker, watcher) => Spawn(s, linker, watcher)
    case ActorExits(actor, reason) => NotifyExit(s, actor, reason)
  }

  // ----- counting

  function Count(refs: seq<Ref>, b: Ref): nat {
    if refs == [] then 0 else Count(refs[..|refs| - 1], b) + if refs[|refs| - 1] == b then 1 else 0
  }

  lemma CountSnoc(refs: seq<Ref>, x: Ref, b: Ref)
    ensures Count(refs + [x], b) == Count(refs, b) + if x == b then 1 else 0
  {
  }

  lemma {:induction false} CountIsMembership(refs: seq<Ref>, b: Ref)
    ensures Count(refs, b) > 0 <==> b in refs
    decreases |refs|
  {
    if refs != [] {
      CountIsMembership(refs[..|refs| - 1], b);
      assert refs == refs[..|refs| - 1] + [refs[|refs| - 1]];
    }
  }

  lemma {:induction false} CountAllBut(refs: seq<Ref>, a: Ref, b: Ref)
    ensures Count(AllBut(refs, a), b) == if a == b then 0 else Count(refs, b)
    decreases |refs|
  {
    if refs != [] {
      var front, last := refs[..|refs| - 1], refs[|refs| - 1];
      CountAllBut(front, a, b);
      if last != a {
        CountSnoc(AllBut(front, a), last, b);
      } else {
        assert AllBut(refs, a) == AllBut(front, a);
      }
    }
  }

  // How often `b` stands in `a`'s list.
  function Linked(s: Net, a: Ref, b: Ref): nat {
    Count(At(s.links, a), b)
  }

  function Watched(s: Net, target: Ref, watcher: Ref): nat {
    Count(At(s.monitors, target), watcher)
  }

  // ----- the invariant

  ghost predicate Symmetric(s: Net) {
    forall a, b :: a != b ==> Linked(s, a, b) == Linked(s, b, a)
  }

  ghost predicate Inv(s: Net) {
    && 0 < s.nextRef
    && Symmetric(s)
    && (forall a :: a in s.actors ==> 0 < a < s.nextRef)
    && (forall a :: a in s.monitors ==> a in s.actors)
    && s.count == |s.actors|
  }

  ghost predicate Initial(s: Net) {
    && s.actors == {} && s.links == map[] && s.monitors == map[] && s.nextRef == 1 && s.count == 0
    && s.sent == [] && s.delivered == []
  }

  // What pushing each end on the other's list does to the counts.
  lemma LinkCounts(s: Net, left: Ref, right: Ref, a: Ref, b: Ref)
    requires left != right && a != b
    ensures Linked(Link(s, left, right), a, b)
         == Linked(s, a, b) + if (a == left && b == right) || (a == right && b == left) then 1 else 0
  {
  }

  // The same for an actor linked to itself: both go on its own list.
  lemma SelfLinkCounts(s: Net, self: Ref, a: Ref, b: Ref)
    requires a != b
    ensures Linked(Link(s, self, self), a, b) == Linked(s, a, b)
  {
    CountSnoc(At(s.links, self), self, b);
    CountSnoc(At(s.links, self) + [self], self, b);
  }

  lemma LinkKeepsSymmetry(s: Net, left: Ref, right: Ref)
    requires Symmetric(s)
    ensures Symmetric(Link(s, left, right))
  {
    var s' := Link(s, left, right);
    forall a, b | a != b
      ensures Linked(s', a, b) == Linked(s', b, a)
    {
      if left == right {
        SelfLinkCounts(s, left, a, b);
        SelfLinkCounts(s, left, b, a);
      } else {
        LinkCounts(s, left, right, a, b);
        LinkCounts(s, left, right, b, a);
      }
      assert Linked(s, a, b) == Linked(s, b, a);
    }
  }

  // After an exit nobody's list mentions the actor, and other entries are untouched.
  lemma ExitCounts(s: Net, a: Ref, reason: Reason, x: Ref, y: Ref)
    requires Symmetric(s) && x != y
    ensures Linked(NotifyExit(s, a, reason), x, y) == if x == a || y == a then 0 else Linked(s, x, y)
  {
    var s' := NotifyExit(s, a, reason);
    if x != a && x in s.links {
      CountIsMembership(At(s.links, a), x);
      CountAllBut(s.links[x], a, y);
      assert x !in At(s.links, a) && y == a ==> Linked(s, x, a) == Linked(s, a, x) == 0;
    }
  }

  // No list anywhere mentions an actor that has exited.
  lemma ExitLeavesNoMention(s: Net, a: Ref, reason: Reason, x: Ref)
    requires Inv(s) && Enabled(s, ActorExits(a, reason))
    ensures var s' := NotifyExit(s, a, reason);
            a !in s'.links && a !in s'.monitors && a !in s'.actors && a !in At(s'.links, x)
  {
    if x != a {
      ExitCounts(s, a, reason, x, a);
      CountIsMembership(At(NotifyExit(s, a, reason).links, x), a);
    }
  }

  lemma StepKeepsInv(s: Net, a: Action)
    requires Inv(s) && Enabled(s, a)
    ensures Inv(Step(s, a))
  {
    var s' := Step(s, a);
    match a
    case Links(left, right) => LinkKeepsSymmetry(s, left, right);
    case Monitors(_, _) => assert forall x, y :: Linked(s', x, y) == Linked(s, x, y);
    case Spawns(linker, watcher) =>
      if linker != 0 {
        LinkKeepsSymmetry(s, linker, s.nextRef);
        assert forall x, y :: Linked(s', x, y) == Linked(Link(s, linker, s.nextRef), x, y);
      } else {
        assert forall x, y :: Linked(s', x, y) == Linked(s, x, y);
      }
    case ActorExits(actor, reason) =>
      forall x, y | x != y
        ensures Linked(s', x, y) == Linked(s', y, x)
      {
        ExitCounts(s, actor, reason, x, y);
        ExitCounts(s, actor, reason, y, x);
        assert Linked(s, x, y) == Linked(s, y, x);
      }
  }

  // ----- obligations over whole runs

  ghost predicate IsRun(states: seq<Net>, actions: seq<Action>) {
    && |states| == |actions| + 1 && Initial(states[0])
    && forall i :: 0 <= i < |actions| ==> Enabled(states[i], actions[i]) && states[i + 1] == Step(states[i], actions[i])
  }

  lemma {:induction false} RunKeepsInv(states: seq<Net>, actions: seq<Action>, i: nat)
    requires IsRun(states, actions) && i <= |actions|
    ensures Inv(states[i])
  {
    if i > 0 {
      RunKeepsInv(states, actions, i - 1);
      var s, a, s' := states[i - 1], actions[i - 1], states[i - 1 + 1];
      assert Enabled(s, a) && s' == Step(s, a);
      StepKeepsInv(s, a);
    }
  }

  predicate Joins(left: Ref, right: Ref, a: Ref, b: Ref) {
    (left == a && right == b) || (left == b && right == a)
  }

  // Whether action `act`, taken in `s`, links `a` and `b`, or makes `watcher` monitor `target`.
  predicate Registers(s: Net, act: Action, a: Ref, b: Ref) {
    match act
    case Links(left, right) => Joins(left, right, a, b)
    case Spawns(linker, _) => linker != 0 && Joins(linker, s.nextRef, a, b)
    case _ => false
  }

  predicate RegistersMonitor(s: Net, act: Action, watcher: Ref, target: Ref) {
    match act
    case Monitors(w, t) => w == watcher && t == target
    case Spawns(_, w) => w != 0 && w == watcher && s.nextRef == target
    case _ => false
  }

  // How often `a` and `b` were linked, and `target` monitored by `watcher`, in the first `i` steps.
  function LinksMade(states: seq<Net>, actions: seq<Action>, i: nat, a: Ref, b: Ref): nat
    requires i <= |actions| <= |states|
  {
    if i == 0 then 0
    else LinksMade(states, actions, i - 1, a, b) + if Registers(states[i - 1], actions[i - 1], a, b) then 1 else 0
  }

  function MonitorsMade(states: seq<Net>, actions: seq<Action>, i: nat, watcher: Ref, target: Ref): nat
    requires i <= |actions| <= |states|
  {
    if i == 0 then 0
    else
      var before := MonitorsMade(states, actions, i - 1, watcher, target);
      if RegistersMonitor(states[i - 1], actions[i - 1], watcher, target) then before + 1 else before
  }

  // Exit signals between `a` and `b`, either way, and down signals about `target` to `watcher`.
  function ExitsBetween(signals: seq<Signal>, a: Ref, b: Ref): nat {
    if signals == [] then 0
    else
      var last := signals[|signals| - 1];
      ExitsBetween(signals[..|signals| - 1], a, b) + if last.ExitSignal? && Joins(last.target, last.from, a, b) then 1 else 0
  }

  function DownsAbout(signals: seq<Signal>, watcher: Ref, target: Ref): nat {
    if signals == [] then 0
    else
      var last := signals[|signals| - 1];
      DownsAbout(signals[..|signals| - 1], watcher, target) + if last.DownSignal? && last.target == watcher && last.from == target then 1 else 0
  }

  lemma {:induction false} ExitsBetweenAppend(xs: seq<Signal>, ys: seq<Signal>, a: Ref, b: Ref)
    ensures ExitsBetween(xs + ys, a, b) == ExitsBetween(xs, a, b) + ExitsBetween(ys, a, b)
    decreases |ys|
  {
    if ys == [] {
      assert xs + ys == xs;
    } else {
      ExitsBetweenAppend(xs, ys[..|ys| - 1], a, b);
      assert (xs + ys)[..|xs + ys| - 1] == xs + ys[..|ys| - 1];
    }
  }

  lemma {:induction false} DownsAboutAppend(xs: seq<Signal>, ys: seq<Signal>, watcher: Ref, target: Ref)
    ensures DownsAbout(xs + ys, watcher, target) == DownsAbout(xs, watcher, target) + DownsAbout(ys, watcher, target)
    decreases |ys|
  {
    if ys == [] {
      assert xs + ys == xs;
    } else {
      DownsAboutAppend(xs, ys[..|ys| - 1], watcher, target);
      assert (xs + ys)[..|xs + ys| - 1] == xs + ys[..|ys| - 1];
    }
  }

  // The exit signals of `from` to `b` are as many as `b` is on the list.
  lemma {:induction false} ExitsCount(refs: seq<Ref>, from: Ref, reason: Reason, a: Ref, b: Ref)
    ensures a != b ==>
              ExitsBetween(Exits(refs, from, reason), a, b)
              == (if from == a then Count(refs, b) else if from == b then Count(refs, a) else 0)
    ensures DownsAbout(Exits(refs, from, reason), a, b) == 0
    decreases |refs|
  {
    if refs != [] {
      ExitsCount(refs[..|refs| - 1], from, reason, a, b);
      assert Exits(refs, from, reason)[..|refs| - 1] == Exits(refs[..|refs| - 1], from, reason);
    }
  }

  lemma {:induction false} DownsCount(refs: seq<Ref>, from: Ref, reason: Reason, watcher: Ref, target: Ref)
    ensures DownsAbout(Downs(refs, from, reason), watcher, target) == if from == target then Count(refs, watcher) else 0
    ensures ExitsBetween(Downs(refs, from, reason), watcher, target) == 0
    decreases |refs|
  {
    if refs != [] {
      DownsCount(refs[..|refs| - 1], from, reason, watcher, target);
      assert Downs(refs, from, reason)[..|refs| - 1] == Downs(refs[..|refs| - 1], from, reason);
    }
  }

  // What an exit sends between two actors: their whole count if it is one of them that exits.
  lemma ExitDischarges(s: Net, actor: Ref, reason: Reason, a: Ref, b: Ref)
    requires Symmetric(s) && a != b
    ensures ExitsBetween(Signals(s, actor, reason), a, b) == if actor == a || actor == b then Linked(s, a, b) else 0
  {
    ExitsBetweenAppend(Exits(At(s.links, actor), actor, reason), Downs(At(s.monitors, actor), actor, reason), a, b);
    ExitsCount(At(s.links, actor), actor, reason, a, b);
    DownsCount(At(s.monitors, actor), actor, reason, a, b);
    assert Linked(s, a, b) == Linked(s, b, a);
  }

  lemma ExitDischargesMonitors(s: Net, actor: Ref, reason: Reason, watcher: Ref, target: Ref)
    ensures DownsAbout(Signals(s, actor, reason), watcher, target) == if actor == target then Watched(s, target, watcher) else 0
  {
    DownsAboutAppend(Exits(At(s.links, actor), actor, reason), Downs(At(s.monitors, actor), actor, reason), watcher, target);
    ExitsCount(At(s.links, actor), actor, reason, watcher, target);
    DownsCount(At(s.monitors, actor), actor, reason, watcher, target);
  }

  lemma StepKeepsLinkBalance(s: Net, act: Action, a: Ref, b: Ref)
    requires Inv(s) && Enabled(s, act) && a != b
    ensures var s' := Step(s, act);
            ExitsBetween(s.sent, a, b) + Linked(s, a, b) + (if Registers(s, act, a, b) then 1 else 0)
            == ExitsBetween(s'.sent, a, b) + Linked(s', a, b)
  {
    match act
    case Links(left, right) =>
      if left == right { SelfLinkCounts(s, left, a, b); } else { LinkCounts(s, left, right, a, b); }
    case Monitors(_, _) =>
    case Spawns(linker, _) =>
      if linker != 0 {
        LinkCounts(s, linker, s.nextRef, a, b);
        assert Linked(Step(s, act), a, b) == Linked(Link(s, linker, s.nextRef), a, b);
      }
    case ActorExits(actor, reason) =>
      ExitCounts(s, actor, reason, a, b);
      ExitDischarges(s, actor, reason, a, b);
      ExitsBetweenAppend(s.sent, Signals(s, actor, reason), a, b);
  }

  // At any time, each link ever made between two actors has either been announced by an exit signal
  // of one of them to the other, or is still in force.
  lemma {:induction false} LinksAreSentOrInForce(states: seq<Net>, actions: seq<Action>, i: nat, a: Ref, b: Ref)
    requires IsRun(states, actions) && i <= |actions| && a != b
    ensures LinksMade(states, actions, i, a, b) == ExitsBetween(states[i].sent, a, b) + Linked(states[i], a, b)
  {
    if i > 0 {
      LinksAreSentOrInForce(states, actions, i - 1, a, b);
      RunKeepsInv(states, actions, i - 1);
      var s, act, s' := states[i - 1], actions[i - 1], states[i - 1 + 1];
      assert Enabled(s, act) && s' == Step(s, act);
      StepKeepsLinkBalance(s, act, a, b);
    }
  }

  // The exit of either end announces all of its links to the other so far, and each only once.
  lemma ExitSendsAllLinks(states: seq<Net>, actions: seq<Action>, i: nat, a: Ref, b: Ref)
    requires IsRun(states, actions) && i < |actions| && a != b
    requires actions[i].ActorExits? && (actions[i].actor == a || actions[i].actor == b)
    ensures LinksMade(states, actions, i, a, b) == ExitsBetween(states[i + 1].sent, a, b)
    ensures Linked(states[i + 1], a, b) == 0
  {
    RunKeepsInv(states, actions, i);
    LinksAreSentOrInForce(states, actions, i + 1, a, b);
    assert states[i + 1] == Step(states[i], actions[i]);
    ExitCounts(states[i], actions[i].actor, actions[i].reason, a, b);
  }

  lemma StepKeepsMonitorBalance(s: Net, act: Action, watcher: Ref, target: Ref)
    requires Inv(s) && Enabled(s, act)
    ensures var s' := Step(s, act);
            DownsAbout(s.sent, watcher, target) + Watched(s, target, watcher) + (if RegistersMonitor(s, act, watcher, target) then 1 else 0)
            == DownsAbout(s'.sent, watcher, target) + Watched(s', target, watcher)
  {
    match act
    case Links(_, _) =>
    case Monitors(w, x) => CountSnoc(At(s.monitors, x), w, watcher);
    case Spawns(_, w) => CountSnoc(At(s.monitors, s.nextRef), w, watcher);
    case ActorExits(actor, reason) =>
      ExitDischargesMonitors(s, actor, reason, watcher, target);
      DownsAboutAppend(s.sent, Signals(s, actor, reason), watcher, target);
  }

  // Each monitor ever set up has been answered by one down signal, or its target is still there.
  lemma {:induction false} MonitorsAreSentOrInForce(states: seq<Net>, actions: seq<Action>, i: nat, watcher: Ref, target: Ref)
    requires IsRun(states, actions) && i <= |actions|
    ensures MonitorsMade(states, actions, i, watcher, target)
         == DownsAbout(states[i].sent, watcher, target) + Watched(states[i], target, watcher)
    ensures target !in states[i].actors ==>
              MonitorsMade(states, actions, i, watcher, target) == DownsAbout(states[i].sent, watcher, target)
  {
    RunKeepsInv(states, actions, i);
    if i > 0 {
      MonitorsAreSentOrInForce(states, actions, i - 1, watcher, target);
      RunKeepsInv(states, actions, i - 1);
      var s, act, s' := states[i - 1], actions[i - 1], states[i - 1 + 1];
      assert Enabled(s, act) && s' == Step(s, act);
      StepKeepsMonitorBalance(s, act, watcher, target);
    }
  }

  lemma {:induction false} ReachingCounts(actors: set<Ref>, signals: seq<Signal>, from: Ref, b: Ref)
    requires forall k :: 0 <= k < |signals| ==> signals[k].from == from
    ensures b != from ==> ExitsBetween(Reaching(actors, signals), from, b) == if b in actors then ExitsBetween(signals, from, b) else 0
    ensures DownsAbout(Reaching(actors, signals), b, from) == if b in actors then DownsAbout(signals, b, from) else 0
    decreases |signals|
  {
    if signals != [] {
      var front, last := signals[..|signals| - 1], signals[|signals| - 1];
      ReachingCounts(actors, front, from, b);
      if last.target in actors {
        assert (Reaching(actors, front) + [last])[..|Reaching(actors, front)|] == Reaching(actors, front);
      } else {
        assert Reaching(actors, signals) == Reaching(actors, front);
      }
    }
  }

  // Signals are lost only on the dead: an actor that is still registered gets one exit signal for
  // each of its links to the one that exits, and one down signal for each of its monitors.
  lemma ExitReachesTheLiving(s: Net, actor: Ref, reason: Reason, b: Ref)
    requires Inv(s) && Enabled(s, ActorExits(actor, reason)) && b != actor
    ensures var reaching := Reaching(s.actors - {actor}, Signals(s, actor, reason));
            && NotifyExit(s, actor, reason).delivered == s.delivered + reaching
            && ExitsBetween(reaching, actor, b) == (if b in s.actors then Linked(s, actor, b) else 0)
            && DownsAbout(reaching, b, actor) == (if b in s.actors then Watched(s, actor, b) else 0)
  {
    ReachingCounts(s.actors - {actor}, Signals(s, actor, reason), actor, b);
    ExitDischarges(s, actor, reason, actor, b);
    ExitDischargesMonitors(s, actor, reason, b, actor);
  }

  // The count is the number of registered actors, at any time.
  lemma CountIsRegistry(states: seq<Net>, actions: seq<Action>, i: nat)
    requires IsRun(states, actions) && i <= |actions|
    ensures states[i].count == |states[i].actors|
  {
    RunKeepsInv(states, actions, i);
  }

  // ----- who is registered

  // Reference `a` has been given out, or its actor has exited, in the first `i` actions.
  ghost predicate GivenOut(states: seq<Net>, actions: seq<Action>, i: nat, a: Ref)
    requires i <= |actions| <= |states|
  {
    exists k :: 0 <= k < i && actions[k].Spawns? && states[k].nextRef == a
  }

  ghost predicate Exited(actions: seq<Action>, i: nat, a: Ref)
    requires i <= |actions|
  {
    exists k :: 0 <= k < i && actions[k].ActorExits? && actions[k].actor == a
  }

  // In any run the registry holds exactly the actors that have been spawned and have not exited.
  lemma {:induction false} RegisteredExactly(states: seq<Net>, actions: seq<Action>, i: nat, a: Ref)
    requires IsRun(states, actions) && i <= |actions|
    ensures a in states[i].actors <==> GivenOut(states, actions, i, a) && !Exited(actions, i, a)
    ensures GivenOut(states, actions, i, a) || Exited(actions, i, a) ==> a < states[i].nextRef
  {
    if i > 0 {
      RegisteredExactly(states, actions, i - 1, a);
      RunKeepsInv(states, actions, i - 1);
      var s, act, s' := states[i - 1], actions[i - 1], states[i - 1 + 1];
      assert Enabled(s, act) && s' == Step(s, act);
      GivenOutSoFar(states, actions, i - 1, a);
      ExitedSoFar(actions, i - 1, a);
    }
  }

  lemma GivenOutSoFar(states: seq<Net>, actions: seq<Action>, i: nat, a: Ref)
    requires i < |actions| <= |states|
    ensures GivenOut(states, actions, i + 1, a)
       <==> GivenOut(states, actions, i, a) || (actions[i].Spawns? && states[i].nextRef == a)
  {
  }

  lemma ExitedSoFar(actions: seq<Action>, i: nat, a: Ref)
    requires i < |actions|
    ensures Exited(actions, i + 1, a) <==> Exited(actions, i, a) || (actions[i].ActorExits? && actions[i].actor == a)
  {
  }

  // ----- the order of the lists

  // Who is put on the lists of actor `x` by action `act` taken in `s`.
  function Watching(s: Net, act: Action, x: Ref): seq<Ref> {
    match act
    case Monitors(watcher, target) => if target == x then [watcher] else []
    case Spawns(_, watcher) => if watcher != 0 && s.nextRef == x then [watcher] else []
    case _ => []
  }

  function Joining(s: Net, act: Action, x: Ref): seq<Ref> {
    match act
    case Links(left, right) => (if left == x then [right] else []) + if right == x then [left] else []
    case Spawns(linker, _) =>
      if linker == 0 then [] else (if linker == x then [s.nextRef] else []) + if s.nextRef == x then [linker] else []
    case _ => []
  }

  // All who came to watch `x`, or were linked to it, in the first `i` steps, in order.
  function WatchersOf(states: seq<Net>, actions: seq<Action>, i: nat, x: Ref): seq<Ref>
    requires i <= |actions| <= |states|
  {
    if i == 0 then [] else WatchersOf(states, actions, i - 1, x) + Watching(states[i - 1], actions[i - 1], x)
  }

  function PartnersOf(states: seq<Net>, actions: seq<Action>, i: nat, x: Ref): seq<Ref>
    requires i <= |actions| <= |states|
  {
    if i == 0 then [] else PartnersOf(states, actions, i - 1, x) + Joining(states[i - 1], actions[i - 1], x)
  }

  // A registered actor's list of monitors names those who came to watch it, in that order.
  lemma {:induction false} MonitorsInOrder(states: seq<Net>, actions: seq<Action>, i: nat, x: Ref)
    requires IsRun(states, actions) && i <= |actions|
    ensures x in states[i].actors ==> At(states[i].monitors, x) == WatchersOf(states, actions, i, x)
    ensures x >= states[i].nextRef ==> WatchersOf(states, actions, i, x) == []
  {
    if i > 0 {
      MonitorsInOrder(states, actions, i - 1, x);
      RunKeepsInv(states, actions, i - 1);
      var s, act, s' := states[i - 1], actions[i - 1], states[i - 1 + 1];
      assert Enabled(s, act) && s' == Step(s, act);
    }
  }

  lemma {:induction false} AllButIsFewer(refs: seq<Ref>, a: Ref)
    ensures Subsequence(AllBut(refs, a), refs)
    decreases |refs|
  {
    if refs == [] {
      EmptySubsequence(refs);
    } else {
      var n := |refs| - 1;
      AllButIsFewer(refs[..n], a);
      SubsequenceOfSnoc(AllBut(refs[..n], a), refs[..n], refs[n]);
      assert refs == refs[..n] + [refs[n]];
      assert AllBut(refs[..n], a) + [] == AllBut(refs[..n], a);
    }
  }

  lemma StepJoins(s: Net, act: Action, x: Ref)
    requires Enabled(s, act)
    ensures if act.ActorExits? then Subsequence(At(Step(s, act).links, x), At(s.links, x))
            else At(Step(s, act).links, x) == At(s.links, x) + Joining(s, act, x)
  {
    match act
    case ActorExits(a, _) =>
      EmptySubsequence(At(s.links, x));
      SubsequenceOfSelf(At(s.links, x));
      AllButIsFewer(At(s.links, x), a);
    case _ =>
  }

  // An actor's list of links names some of those it was linked to, in that order: which of them are
  // left is what the counts of links say.
  lemma {:induction false} LinksInOrder(states: seq<Net>, actions: seq<Action>, i: nat, x: Ref)
    requires IsRun(states, actions) && i <= |actions|
    ensures Subsequence(At(states[i].links, x), PartnersOf(states, actions, i, x))
  {
    if i == 0 {
      EmptySubsequence(PartnersOf(states, actions, 0, x));
    } else {
      LinksInOrder(states, actions, i - 1, x);
      var s, act, s' := states[i - 1], actions[i - 1], states[i - 1 + 1];
      assert Enabled(s, act) && s' == Step(s, act);
      StepJoins(s, act, x);
      var before, joining := PartnersOf(states, actions, i - 1, x), Joining(s, act, x);
      if act.ActorExits? {
        SubsequenceTransitive(At(s'.links, x), At(s.links, x), before);
        assert before + [] == before;
      } else {
        SubsequenceOfSelf(joining);
        SubsequenceOfAppend(At(s.links, x), before, joining, joining);
      }
    }
  }

  // ----- what each signal says

  // One exit signal for each entry of the list of links, in order, then one down signal for each entry
  // of the list of monitors, all about this actor and its reason.
  ghost predicate Announces(signals: seq<Signal>, linked: seq<Ref>, watchers: seq<Ref>, a: Ref, reason: Reason) {
    && |signals| == |linked| + |watchers|
    && (forall k :: 0 <= k < |linked| ==> signals[k] == ExitSignal(linked[k], a, reason))
    && (forall k :: 0 <= k < |watchers| ==> signals[|linked| + k] == DownSignal(watchers[k], a, reason))
  }

  // What an exit sends, given its lists.
  lemma ExitAnnounces(s: Net, a: Ref, reason: Reason) returns (signals: seq<Signal>)
    requires Enabled(s, ActorExits(a, reason))
    ensures Step(s, ActorExits(a, reason)).sent == s.sent + signals
    ensures Announces(signals, if a in s.links then s.links[a] else [], if a in s.monitors then s.monitors[a] else [], a, reason)
  {
    signals := Signals(s, a, reason);
    ListsAnnounce(At(s.links, a), At(s.monitors, a), a, reason);
  }

  lemma ListsAnnounce(linked: seq<Ref>, watchers: seq<Ref>, a: Ref, reason: Reason)
    ensures Announces(Exits(linked, a, reason) + Downs(watchers, a, reason), linked, watchers, a, reason)
  {
  }

  // Nothing else sends a signal.
  lemma NewSignal(s: Net, act: Action, k: nat)
    requires Enabled(s, act) && |s.sent| <= k < |Step(s, act).sent|
    ensures act == ActorExits(Step(s, act).sent[k].from, Step(s, act).sent[k].reason)
  {
    if act.ActorExits? {
      var signals := ExitAnnounces(s, act.actor, act.reason);
      assert Step(s, act).sent[k] == signals[k - |s.sent|];
      AnnouncedBy(signals, At(s.links, act.actor), At(s.monitors, act.actor), act.actor, act.reason, k - |s.sent|);
    }
  }

  lemma AnnouncedBy(signals: seq<Signal>, linked: seq<Ref>, watchers: seq<Ref>, a: Ref, reason: Reason, k: nat)
    requires Announces(signals, linked, watchers, a, reason) && k < |signals|
    ensures signals[k].from == a && signals[k].reason == reason
  {
    assert k >= |linked| ==> signals[|linked| + (k - |linked|)] == DownSignal(watchers[k - |linked|], a, reason);
  }

  lemma OldSignal(s: Net, act: Action, k: nat)
    requires Enabled(s, act) && k < |s.sent|
    ensures k < |Step(s, act).sent| && Step(s, act).sent[k] == s.sent[k]
  {
  }

  // In any run every signal that was sent is about the one exit of the actor it names, and gives the
  // reason of that exit.
  lemma {:induction false} EverySignalHasItsExit(states: seq<Net>, actions: seq<Action>, i: nat, k: nat) returns (j: nat)
    requires IsRun(states, actions) && i <= |actions| && k < |states[i].sent|
    ensures j < i && actions[j] == ActorExits(states[i].sent[k].from, states[i].sent[k].reason)
    ensures forall l :: 0 <= l < |actions| && l != j ==> !(actions[l].ActorExits? && actions[l].actor == states[i].sent[k].from)
  {
    assert i > 0 by { assert states[0].sent == []; }
    var s, act, s' := states[i - 1], actions[i - 1], states[i - 1 + 1];
    assert Enabled(s, act) && s' == Step(s, act);
    if k < |s.sent| {
      j := EverySignalHasItsExit(states, actions, i - 1, k);
      OldSignal(s, act, k);
    } else {
      j := i - 1;
      NewSignal(s, act, k);
      ExitsOnce(states, actions, j);
    }
  }

  lemma ExitsOnce(states: seq<Net>, actions: seq<Action>, j: nat)
    requires IsRun(states, actions) && j < |actions| && actions[j].ActorExits?
    ensures forall l :: 0 <= l < |actions| && l != j ==> !(actions[l].ActorExits? && actions[l].actor == actions[j].actor)
  {
    var a := actions[j].actor;
    forall l | 0 <= l < |actions| && actions[l].ActorExits? && actions[l].actor == a
      ensures l == j
    {
      assert Enabled(states[l], actions[l]) && Enabled(states[j], actions[j]);
      RegisteredExactly(states, actions, l, a);
      RegisteredExactly(states, actions, j, a);
    }
  }

  lemma {:induction false} ReachingAreSome(actors: set<Ref>, signals: seq<Signal>)
    ensures forall k :: 0 <= k < |Reaching(actors, signals)| ==> Reaching(actors, signals)[k] in signals && Reaching(actors, signals)[k].target in actors
    decreases |signals|
  {
    if signals != [] {
      ReachingAreSome(actors, signals[..|signals| - 1]);
    }
  }

  // And what is delivered was sent.
  lemma {:induction false} DeliveredWasSent(states: seq<Net>, actions: seq<Action>, i: nat, k: nat)
    requires IsRun(states, actions) && i <= |actions| && k < |states[i].delivered|
    ensures states[i].delivered[k] in states[i].sent
  {
    if i > 0 {
      var s, act, s' := states[i - 1], actions[i - 1], states[i - 1 + 1];
      assert Enabled(s, act) && s' == Step(s, act);
      if k < |s.delivered| {
        DeliveredWasSent(states, actions, i - 1, k);
        assert s'.delivered[k] == s.delivered[k];
      } else {
        ReachingAreSome(s.actors - {act.actor}, Signals(s, act.actor, act.reason));
      }
    }
  }
}
