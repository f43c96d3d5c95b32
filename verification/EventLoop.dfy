/**
  The single-threaded scheduler: a queue of coroutines that are ready and a multimap of callbacks by
  deadline.

  What resuming a coroutine or invoking a callback does is a finite list of effects, so a run ends.
  The clock moves on by any amount, never back.
*/
module EventLoops {
  import opened ActorControl

  // Something to run, and what running it schedules. A coroutine that is done by the time its turn
  // comes has no effects.
  datatype Work = Work(name: nat, effects: seq<Effect>)
  datatype Effect = Ready(work: Work) | After(delay: nat, work: Work)

  // The `order`-th registration, made at time `since`.
  datatype Timer = Timer(since: Time, delay: nat, order: nat, work: Work) {
    function Deadline(): Time {
      since + delay
    }
  }

  // ----- the multimap: sorted by deadline, equal deadlines in order of insertion

  predicate Before(a: Timer, b: Timer) {
    a.Deadline() < b.Deadline() || (a.Deadline() == b.Deadline() && a.order < b.order)
  }

  ghost predicate Sorted(timers: seq<Timer>) {
    forall i, j :: 0 <= i < j < |timers| ==> Before(timers[i], timers[j])
  }

  // How many timers come before a new one with this deadline.
  function Position(timers: seq<Timer>, deadline: Time): (k: nat)
    ensures k <= |timers|
    ensures k > 0 ==> timers[k - 1].Deadline() <= deadline
    ensures forall i :: k <= i < |timers| ==> timers[i].Deadline() > deadline
  {
    if timers == [] || timers[|timers| - 1].Deadline() <= deadline then |timers|
    else Position(timers[..|timers| - 1], deadline)
  }

  function Insert(timers: seq<Timer>, t: Timer): seq<Timer> {
    var k := Position(timers, t.Deadline());
    timers[..k] + [t] + timers[k..]
  }

  lemma InsertSorts(timers: seq<Timer>, t: Timer)
    requires Sorted(timers) && forall i :: 0 <= i < |timers| ==> timers[i].order < t.order
    ensures Sorted(Insert(timers, t))
  {
  }

  lemma InsertAddsOne(timers: seq<Timer>, t: Timer)
    ensures multiset(Insert(timers, t)) == multiset(timers) + multiset{t}
  {
    var k := Position(timers, t.Deadline());
    var front, back := timers[..k], timers[k..];
    assert timers == front + back;
    assert multiset(front + [t] + back) == multiset(front) + multiset{t} + multiset(back);
  }

  // ----- the loop's state and history

  datatype Loop = Loop(
    ready: seq<Work>,
    timers: seq<Timer>,
    clock: Time,
    scheduled: seq<Work>,     // everything ever made ready
    resumed: seq<Work>,
    registered: seq<Timer>,   // every timer ever registered
    fired: seq<Timer>,
    times: seq<Time>)         // when each of them fired

  // What fired so far comes before what has not, and none of it was early; every registration has
  // fired or is waiting, once; and coroutines are resumed in the order they became ready.
  ghost predicate Inv(s: Loop) {
    && Sorted(s.fired + s.timers)
    && multiset(s.fired) + multiset(s.timers) == multiset(s.registered)
    && (forall i :: 0 <= i < |s.registered| ==> s.registered[i].order == i && s.registered[i].since <= s.clock)
    && |s.times| == |s.fired|
    && (forall i :: 0 <= i < |s.fired| ==> s.fired[i].Deadline() <= s.times[i] <= s.clock)
    && (forall i, j :: 0 <= i < j < |s.times| ==> s.times[i] <= s.times[j])
    && s.scheduled == s.resumed + s.ready
  }

  function Tick(s: Loop, now: Time): Loop
    requires s.clock <= now
  {
    s.(clock := now)
  }

  function Schedule(s: Loop, work: Work): Loop {
    s.(ready := s.ready + [work], scheduled := s.scheduled + [work])
  }

  function ScheduleAfter(s: Loop, delay: nat, work: Work): Loop {
    var t := Timer(s.clock, delay, |s.registered|, work);
    s.(timers := Insert(s.timers, t), registered := s.registered + [t])
  }

  // The coroutine at the front, or the earliest timer, is about to run.
  function Take(s: Loop): Loop
    requires s.ready != []
  {
    s.(ready := s.ready[1..], resumed := s.resumed + [s.ready[0]])
  }

  function TakeTimer(s: Loop): Loop
    requires s.timers != [] && s.timers[0].Deadline() <= s.clock
  {
    s.(timers := s.timers[1..], fired := s.fired + [s.timers[0]], times := s.times + [s.clock])
  }

  lemma TimerIsRegistered(s: Loop, t: Timer)
    requires Inv(s) && (t in s.timers || t in s.fired)
    ensures t in s.registered
  {
    assert t in multiset(s.fired) + multiset(s.timers);
  }

  lemma TickKeepsInv(s: Loop, now: Time)
    requires Inv(s) && s.clock <= now
    ensures Inv(Tick(s, now))
  {
  }

  lemma TakeKeepsInv(s: Loop)
    requires Inv(s) && s.ready != []
    ensures Inv(Take(s))
  {
  }

  lemma TakeTimerKeepsInv(s: Loop)
    requires Inv(s) && s.timers != [] && s.timers[0].Deadline() <= s.clock
    ensures Inv(TakeTimer(s))
  {
    var s' := TakeTimer(s);
    assert s.timers == [s.timers[0]] + s.timers[1..];
    assert s'.fired + s'.timers == s.fired + s.timers;
  }

  // A new timer comes after everything that has fired: its deadline is not in the past, and it is
  // the latest registration.
  lemma ScheduleAfterKeepsInv(s: Loop, delay: nat, work: Work)
    requires Inv(s)
    ensures Inv(ScheduleAfter(s, delay, work))
  {
    var t, s' := Timer(s.clock, delay, |s.registered|, work), ScheduleAfter(s, delay, work);
    NewTimerIsLast(s, t);
    InsertSorts(s.timers, t);
    InsertAddsOne(s.timers, t);
    InsertAfter(s.fired, s.timers, t);
    OneMoreTimer(multiset(s.fired), multiset(s.timers), multiset(s.registered), t);
    assert multiset(s'.registered) == multiset(s.registered) + multiset{t};
  }

  lemma OneMoreTimer(fired: multiset<Timer>, timers: multiset<Timer>, registered: multiset<Timer>, t: Timer)
    requires fired + timers == registered
    ensures fired + (timers + multiset{t}) == registered + multiset{t}
  {
  }

  lemma NewTimerIsLast(s: Loop, t: Timer)
    requires Inv(s) && t.since == s.clock && t.order == |s.registered|
    ensures Sorted(s.timers)
    ensures forall i :: 0 <= i < |s.timers| ==> s.timers[i].order < t.order
    ensures forall i :: 0 <= i < |s.fired| ==> Before(s.fired[i], t)
  {
    assert forall i :: 0 <= i < |s.timers| ==> s.timers[i] == (s.fired + s.timers)[|s.fired| + i];
    forall i | 0 <= i < |s.timers|
      ensures s.timers[i].order < t.order
    {
      TimerIsRegistered(s, s.timers[i]);
    }
    forall i | 0 <= i < |s.fired|
      ensures Before(s.fired[i], t)
    {
      TimerIsRegistered(s, s.fired[i]);
    }
  }

  lemma InsertAfter(fired: seq<Timer>, timers: seq<Timer>, t: Timer)
    requires Sorted(fired + timers) && Sorted(Insert(timers, t)) && forall i :: 0 <= i < |fired| ==> Before(fired[i], t)
    ensures Sorted(fired + Insert(timers, t))
  {
    var all, inserted := fired + timers, Insert(timers, t);
    var k := Position(timers, t.Deadline());
    forall i, j | 0 <= i < |fired| && 0 <= j < |inserted|
      ensures Before(fired[i], inserted[j])
    {
      if j != k {
        assert inserted[j] == all[|fired| + if j < k then j else j - 1];
        assert fired[i] == all[i];
      }
    }
    forall i, j | 0 <= i < j < |fired|
      ensures Before(fired[i], fired[j])
    {
      assert fired[i] == all[i] && fired[j] == all[j];
    }
  }

  // ----- when a run is over

  // Everything registered has fired, once each, in order of deadline and, for equal deadlines, of
  // registration; nothing fired early; everything made ready was resumed, in that order.
  lemma OverMeansAllFired(s: Loop)
    requires Inv(s) && s.ready == [] && s.timers == []
    ensures multiset(s.fired) == multiset(s.registered) && |s.fired| == |s.registered|
    ensures Sorted(s.fired) && InTimeOrder(s.fired)
    ensures forall i :: 0 <= i < |s.fired| ==> s.fired[i].since + s.fired[i].delay <= s.times[i]
    ensures s.resumed == s.scheduled
  {
    assert s.fired + s.timers == s.fired;
    assert |multiset(s.fired)| == |multiset(s.registered)|;
  }

  // The order of firing is determined by the registrations: there is only one sorted way.
  lemma {:induction false} OneSortedOrder(a: seq<Timer>, b: seq<Timer>)
    requires Sorted(a) && Sorted(b) && multiset(a) == multiset(b)
    ensures a == b
    decreases |a|
  {
    assert |multiset(a)| == |multiset(b)|;
    if a != [] {
      SameFirst(a, b);
      TailBag(a);
      TailBag(b);
      assert Sorted(a[1..]) && Sorted(b[1..]);
      OneSortedOrder(a[1..], b[1..]);
      assert a == [a[0]] + a[1..] && b == [b[0]] + b[1..];
    }
  }

  lemma SameFirst(a: seq<Timer>, b: seq<Timer>)
    requires Sorted(a) && Sorted(b) && multiset(a) == multiset(b) && a != [] && b != []
    ensures a[0] == b[0]
  {
    assert a[0] in multiset(b) && b[0] in multiset(a);
    FirstIsLeast(a, b[0]);
    FirstIsLeast(b, a[0]);
  }

  lemma FirstIsLeast(a: seq<Timer>, t: Timer)
    requires Sorted(a) && t in a
    ensures a[0] == t || Before(a[0], t)
  {
  }

  lemma TailBag(a: seq<Timer>)
    requires a != []
    ensures multiset(a[1..]) == multiset(a) - multiset{a[0]}
  {
    assert a == [a[0]] + a[1..];
  }

  // ----- what running something asks for

  // What the effects make ready, and what they register, in order.
  function Readied(effects: seq<Effect>): seq<Work> {
    if effects == [] then []
    else
      var last := effects[|effects| - 1];
      Readied(effects[..|effects| - 1]) + if last.Ready? then [last.work] else []
  }

  datatype Request = Request(delay: nat, work: Work)

  function Delayed(effects: seq<Effect>): seq<Request> {
    if effects == [] then []
    else
      var last := effects[|effects| - 1];
      Delayed(effects[..|effects| - 1]) + if last.After? then [Request(last.delay, last.work)] else []
  }

  function Requests(timers: seq<Timer>): seq<Request> {
    seq(|timers|, i requires 0 <= i < |timers| => Request(timers[i].delay, timers[i].work))
  }

  // The same for everything that some timers run.
  function ReadiedBy(timers: seq<Timer>): seq<Work> {
    if timers == [] then [] else ReadiedBy(timers[..|timers| - 1]) + Readied(timers[|timers| - 1].work.effects)
  }

  function DelayedBy(timers: seq<Timer>): seq<Request> {
    if timers == [] then [] else DelayedBy(timers[..|timers| - 1]) + Delayed(timers[|timers| - 1].work.effects)
  }

  lemma EffectsSnoc(effects: seq<Effect>, i: nat)
    requires i < |effects|
    ensures Readied(effects[..i + 1]) == Readied(effects[..i]) + Readied([effects[i]])
    ensures Delayed(effects[..i + 1]) == Delayed(effects[..i]) + Delayed([effects[i]])
  {
    assert effects[..i + 1][..i] == effects[..i];
    OneEffect(effects[i]);
  }

  lemma OneEffect(e: Effect)
    ensures Readied([e]) == if e.Ready? then [e.work] else []
    ensures Delayed([e]) == if e.After? then [Request(e.delay, e.work)] else []
  {
    assert [e][..0] == [];
  }

  lemma TimersSnoc(timers: seq<Timer>, t: Timer)
    ensures ReadiedBy(timers + [t]) == ReadiedBy(timers) + Readied(t.work.effects)
    ensures DelayedBy(timers + [t]) == DelayedBy(timers) + Delayed(t.work.effects)
  {
    assert (timers + [t])[..|timers|] == timers;
  }

  // What running `readied` and `delayed` adds to the loop.
  ghost predicate Asks(s: Loop, s': Loop, readied: seq<Work>, delayed: seq<Request>) {
    && s.clock <= s'.clock
    && s'.scheduled == s.scheduled + readied
    && s.registered <= s'.registered && Requests(s'.registered) == Requests(s.registered) + delayed
    && forall k :: |s.registered| <= k < |s'.registered| ==> s.clock <= s'.registered[k].since <= s'.clock
  }

  lemma AsksNothing(s: Loop, s': Loop)
    requires s'.scheduled == s.scheduled && s'.registered == s.registered && s.clock <= s'.clock
    ensures Asks(s, s', [], [])
  {
  }

  lemma AsksMore(s: Loop, s': Loop, s'': Loop, readied: seq<Work>, delayed: seq<Request>, more: seq<Work>, others: seq<Request>)
    requires Asks(s, s', readied, delayed) && Asks(s', s'', more, others)
    ensures Asks(s, s'', readied + more, delayed + others)
  {
  }

  // Timers have fired and no coroutine has been resumed.
  ghost predicate OnlyFires(s: Loop, s': Loop) {
    && s'.resumed == s.resumed && s.fired <= s'.fired
    && Asks(s, s', ReadiedBy(s'.fired[|s.fired|..]), DelayedBy(s'.fired[|s.fired|..]))
  }

  lemma OnlyWaits(s: Loop, s': Loop, s'': Loop)
    requires OnlyFires(s, s') && s''.clock >= s'.clock
    requires s''.fired == s'.fired && s''.resumed == s'.resumed && s''.scheduled == s'.scheduled && s''.registered == s'.registered
    ensures OnlyFires(s, s'')
  {
  }

  lemma OneMoreFires(s: Loop, s': Loop, s'': Loop, t: Timer)
    requires OnlyFires(s, s') && s''.fired == s'.fired + [t] && s''.resumed == s'.resumed
    requires Asks(s', s'', Readied(t.work.effects), Delayed(t.work.effects))
    ensures OnlyFires(s, s'')
  {
    var before, after := s'.fired[|s.fired|..], s''.fired[|s.fired|..];
    TimersSnoc(before, t);
    assert after == before + [t];
    AsksMore(s, s', s'', ReadiedBy(before), DelayedBy(before), Readied(t.work.effects), Delayed(t.work.effects));
  }

  // One turn of the loop: with something ready, the coroutine at the front is resumed, and no timer
  // fires; with nothing ready, timers fire until there are none, and no coroutine is resumed.
  ghost predicate Turn(s: Loop, s': Loop) {
    if s.ready != [] then
      && s'.resumed == s.resumed + [s.ready[0]] && s'.fired == s.fired
      && Asks(s, s', Readied(s.ready[0].effects), Delayed(s.ready[0].effects))
    else
      s'.timers == [] && OnlyFires(s, s')
  }

  // Sorted by the time of registration and the delay, and then by registration.
  ghost predicate InTimeOrder(timers: seq<Timer>) {
    forall i, j :: 0 <= i < j < |timers| ==>
      var early, late := timers[i].since + timers[i].delay, timers[j].since + timers[j].delay;
      early < late || (early == late && timers[i].order < timers[j].order)
  }

  // ----- how much there is to do

  function Size(work: Work): nat
    decreases work, |work.effects| + 1
  {
    1 + SizeUpTo(work, |work.effects|)
  }

  // The work that the first `n` effects schedule.
  function SizeUpTo(work: Work, n: nat): nat
    requires n <= |work.effects|
    decreases work, n
  {
    if n == 0 then 0 else SizeUpTo(work, n - 1) + Size(work.effects[n - 1].work)
  }

  function ReadySize(ready: seq<Work>): nat {
    if ready == [] then 0 else Size(ready[|ready| - 1]) + ReadySize(ready[..|ready| - 1])
  }

  function TimersSize(timers: seq<Timer>): nat {
    if timers == [] then 0 else Size(timers[|timers| - 1].work) + TimersSize(timers[..|timers| - 1])
  }

  function Remaining(s: Loop): nat {
    ReadySize(s.ready) + TimersSize(s.timers)
  }

  lemma {:induction false} ReadySizeAppend(xs: seq<Work>, ys: seq<Work>)
    ensures ReadySize(xs + ys) == ReadySize(xs) + ReadySize(ys)
    decreases |ys|
  {
    if ys == [] {
      assert xs + ys == xs;
    } else {
      ReadySizeAppend(xs, ys[..|ys| - 1]);
      assert (xs + ys)[..|xs + ys| - 1] == xs + ys[..|ys| - 1];
    }
  }

  lemma {:induction false} TimersSizeAppend(xs: seq<Timer>, ys: seq<Timer>)
    ensures TimersSize(xs + ys) == TimersSize(xs) + TimersSize(ys)
    decreases |ys|
  {
    if ys == [] {
      assert xs + ys == xs;
    } else {
      TimersSizeAppend(xs, ys[..|ys| - 1]);
      assert (xs + ys)[..|xs + ys| - 1] == xs + ys[..|ys| - 1];
    }
  }

  lemma InsertSize(timers: seq<Timer>, t: Timer)
    ensures TimersSize(Insert(timers, t)) == TimersSize(timers) + Size(t.work)
  {
    var k := Position(timers, t.Deadline());
    TimersSizeAppend(timers[..k] + [t], timers[k..]);
    TimersSizeAppend(timers[..k], [t]);
    TimersSizeAppend(timers[..k], timers[k..]);
    assert timers[..k] + timers[k..] == timers;
    assert [t][..0] == [];
  }
}
