/**
  The single-threaded scheduler object and its `run` loop, on the state of `EventLoops`.
*/
module Schedulers {
  import opened ActorControl
  import opened EventLoops

  class Scheduler {
    var ready: seq<Work>
    var timers: seq<Timer>
    var clock: Time
    // History; a timer's place among equal deadlines is its place here.
    var registered: seq<Timer>
    ghost var scheduled: seq<Work>
    ghost var resumed: seq<Work>
    ghost var fired: seq<Timer>
    ghost var times: seq<Time>

    ghost function View(): Loop
      reads this
    {
      Loop(ready, timers, clock, scheduled, resumed, registered, fired, times)
    }

    ghost predicate Valid()
      reads this
    {
      Inv(View())
    }

    constructor (now: Time)
      ensures Valid() && View() == Loop([], [], now, [], [], [], [], [])
    {
      ready, timers, clock, registered := [], [], now, [];
      scheduled, resumed, fired, times := [], [], [], [];
    }

    method ReadClock() returns (now: Time)
      requires Valid()
      modifies this`clock
      ensures Valid() && old(clock) <= clock == now && View() == Tick(old(View()), now)
    {
      var elapsed: nat :| 0 <= elapsed;
      TickKeepsInv(View(), clock + elapsed);
      clock := clock + elapsed;
      now := clock;
    }

    method SleepUntil(deadline: Time)
      requires Valid() && clock < deadline
      modifies this`clock
      ensures Valid() && deadline <= clock && View() == Tick(old(View()), clock)
    {
      var late: nat :| 0 <= late;
      TickKeepsInv(View(), deadline + late);
      clock := deadline + late;
    }

    method Schedule(work: Work)
      requires Valid()
      modifies this`ready, this`scheduled
      ensures Valid() && View() == EventLoops.Schedule(old(View()), work)
    {
      ready := ready + [work];
      scheduled := scheduled + [work];
    }

    // Stable: after all timers with the same deadline.
    method Emplace(t: Timer)
      modifies this`timers
      ensures timers == Insert(old(timers), t)
    {
      var k: nat := |timers|;
      assert timers[..k] == timers;
      while k > 0 && timers[k - 1].Deadline() > t.Deadline()
        invariant k <= |timers|
        invariant Position(timers[..k], t.Deadline()) == Position(timers, t.Deadline())
      {
        assert timers[..k][..k - 1] == timers[..k - 1];
        k := k - 1;
      }
      timers := timers[..k] + [t] + timers[k..];
    }

    method ScheduleAfter(delay: nat, work: Work)
      requires Valid()
      modifies this`timers, this`clock, this`registered
      ensures Valid() && old(clock) <= clock && View() == EventLoops.ScheduleAfter(Tick(old(View()), clock), delay, work)
    {
      var now := ReadClock();
      ScheduleAfterKeepsInv(View(), delay, work);
      var t := Timer(now, delay, |registered|, work);
      Emplace(t);
      registered := registered + [t];
    }

    // What the coroutine or the callback does when it runs: all its effects, in order.
    method Perform(work: Work)
      requires Valid()
      modifies this`ready, this`scheduled, this`timers, this`clock, this`registered
      ensures Valid() && Remaining(View()) == old(Remaining(View())) + SizeUpTo(work, |work.effects|)
      ensures Asks(old(View()), View(), Readied(work.effects), Delayed(work.effects))
    {
      var i := 0;
      AsksNothing(View(), View());
      while i < |work.effects|
        invariant i <= |work.effects| && Valid()
        invariant Remaining(View()) == old(Remaining(View())) + SizeUpTo(work, i)
        invariant Asks(old(View()), View(), Readied(work.effects[..i]), Delayed(work.effects[..i]))
      {
        ghost var s := View();
        EffectsSnoc(work.effects, i);
        Apply(work.effects[i]);
        AsksMore(old(View()), s, View(), Readied(work.effects[..i]), Delayed(work.effects[..i]),
                 Readied([work.effects[i]]), Delayed([work.effects[i]]));
        i := i + 1;
      }
      assert work.effects[..i] == work.effects;
    }

    method Apply(effect: Effect)
      requires Valid()
      modifies this`ready, this`scheduled, this`timers, this`clock, this`registered
      ensures Valid() && Remaining(View()) == old(Remaining(View())) + Size(effect.work)
      ensures Asks(old(View()), View(), Readied([effect]), Delayed([effect]))
    {
      OneEffect(effect);
      match effect {
        case Ready(next) =>
          ReadySizeAppend(ready, [next]);
          OneReady(next);
          Schedule(next);
        case After(delay, next) =>
          InsertedSize(timers, delay, next);
          ScheduleAfter(delay, next);
      }
    }

    method ResumeNext()
      requires Valid() && ready != []
      modifies this
      ensures Valid() && Remaining(View()) < old(Remaining(View())) && Turn(old(View()), View())
    {
      TakeKeepsInv(View());
      ReadySizeAppend([ready[0]], ready[1..]);
      OneReady(ready[0]);
      assert ready == [ready[0]] + ready[1..];
      var handle := ready[0];
      ready, resumed := ready[1..], resumed + [handle];
      Perform(handle);
    }

    method FireNext()
      requires Valid() && timers != [] && timers[0].Deadline() <= clock
      modifies this
      ensures Valid() && Remaining(View()) < old(Remaining(View()))
      ensures fired == old(fired) + [old(timers)[0]] && times == old(times) + [old(clock)] && resumed == old(resumed)
      ensures Asks(old(View()), View(), Readied(old(timers)[0].work.effects), Delayed(old(timers)[0].work.effects))
    {
      TakeTimerKeepsInv(View());
      TimersSizeAppend([timers[0]], timers[1..]);
      OneTimer(timers[0]);
      assert timers == [timers[0]] + timers[1..];
      var t := timers[0];
      timers, fired, times := timers[1..], fired + [t], times + [clock];
      Perform(t.work);
    }

    // Fires timers until there are none, sleeping when the earliest is not due. Coroutines that become
    // ready meanwhile have to wait.
    method FireAll()
      requires Valid()
      modifies this
      ensures Valid() && timers == [] && Remaining(View()) <= old(Remaining(View()))
      ensures old(timers) != [] ==> Remaining(View()) < old(Remaining(View()))
      ensures OnlyFires(old(View()), View())
    {
      AsksNothing(View(), View());
      while timers != []
        invariant Valid() && Remaining(View()) <= old(Remaining(View()))
        invariant Remaining(View()) < old(Remaining(View())) || timers == old(timers)
        invariant OnlyFires(old(View()), View())
        decreases Remaining(View()), if timers == [] || timers[0].Deadline() <= clock then 0 else 1
      {
        ghost var s := View();
        var now := ReadClock();
        OnlyWaits(old(View()), s, View());
        s := View();
        if timers[0].Deadline() > now {
          SleepUntil(timers[0].Deadline());
          OnlyWaits(old(View()), s, View());
          continue;
        }
        FireNext();
        OneMoreFires(old(View()), s, View(), s.timers[0]);
      }
    }

    // When the loop returns, everything registered before or during it has fired, exactly once, in
    // order of deadline and then of registration, and never early; and everything made ready has
    // been resumed, in that order. `turns` are the states in which the loop turned.
    method Run() returns (ghost turns: seq<Loop>)
      requires Valid()
      modifies this
      ensures Valid() && ready == [] && timers == []
      ensures multiset(fired) == multiset(registered) && InTimeOrder(fired)
      ensures |times| == |fired| && forall i :: 0 <= i < |fired| ==> fired[i].since + fired[i].delay <= times[i]
      ensures resumed == scheduled
      ensures turns != [] && turns[0] == old(View()) && turns[|turns| - 1] == View()
      ensures forall k :: 0 <= k < |turns| - 1 ==> Turn(turns[k], turns[k + 1])
    {
      turns := [View()];
      while ready != [] || timers != []
        invariant Valid()
        invariant turns != [] && turns[0] == old(View()) && turns[|turns| - 1] == View()
        invariant forall k :: 0 <= k < |turns| - 1 ==> Turn(turns[k], turns[k + 1])
        decreases Remaining(View())
      {
        ghost var s := View();
        if ready != [] {
          ResumeNext();
          turns := turns + [View()];
          continue;
        }
        FireAll();
        turns := turns + [View()];
      }
      OverMeansAllFired(View());
    }
  }

  lemma OneReady(work: Work)
    ensures ReadySize([work]) == Size(work)
  {
  }

  lemma OneTimer(t: Timer)
    ensures TimersSize([t]) == Size(t.work)
  {
  }

  lemma InsertedSize(timers: seq<Timer>, delay: nat, work: Work)
    ensures forall since, order :: TimersSize(Insert(timers, Timer(since, delay, order, work))) == TimersSize(timers) + Size(work)
  {
    forall since, order
      ensures TimersSize(Insert(timers, Timer(since, delay, order, work))) == TimersSize(timers) + Size(work)
    {
      InsertSize(timers, Timer(since, delay, order, work));
    }
  }
}
