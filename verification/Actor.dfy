/**
  The actor object: mailbox, waiting receive and awaiters, updated in place by its methods, against
  the functions of `Mailboxes` on its state.
*/
module Actors {
  import opened ActorControl
  import opened Collections
  import opened Mailboxes

  class Actor {
    const self: Ref
    var mailbox: seq<Message>
    var pending: Option<nat>
    var exitReason: Option<Reason>
    // The awaiters of its coroutine so far, and what it has handed to the scheduler.
    var receives: seq<Receive>
    var timers: set<nat>
    var ready: seq<nat>
    var control: Control

    ghost var arrivals: seq<Message>
    ghost var queued: seq<nat>
    ghost var fates: seq<Fate>

    ghost function View(): Box
      reads this
    {
      Box(mailbox, pending, exitReason, receives, timers, ready, control, arrivals, queued, fates)
    }

    ghost predicate Valid()
      reads this
    {
      Inv(View())
    }

    constructor (self: Ref)
      ensures Valid() && Initial(View()) && this.self == self
    {
      this.self := self;
      mailbox, pending, exitReason, receives, timers, ready, control := [], None, None, [], {}, [], Running;
      arrivals, queued, fates := [], [], [];
    }

    // The visitors are tried in order until one takes the message.
    static method TryMatchVisitors(visitors: seq<set<Kind>>, m: Message) returns (visitor: Option<nat>)
      ensures match visitor
              case Some(v) => v < |visitors| && KindOf(m) in visitors[v] && FirstVisitor(visitors, m) == Some(v)
              case None => !Accepts(visitors, m)
    {
      var v := 0;
      while v < |visitors|
        invariant v <= |visitors| && forall u :: 0 <= u < v ==> KindOf(m) !in visitors[u]
      {
        if KindOf(m) in visitors[v] {
          return Some(v);
        }
        v := v + 1;
      }
      visitor := None;
    }

    // The messages are tried in order until a visitor of receive `r` takes one.
    method TryMatchMailbox(r: nat) returns (found: bool)
      requires Shaped(View()) && r < |receives|
      modifies this`mailbox, this`receives, this`queued, this`fates
      ensures found == Mailboxes.TryMatch(old(View()), r).1
      ensures !found ==> View() == old(View())
      ensures found ==>
                && |receives| == |old(receives)|
                && View().(receives := receives[r := receives[r].(active := false)]) == Mailboxes.TryMatch(old(View()), r).0
    {
      var k := 0;
      while k < |mailbox|
        invariant k <= |mailbox| && View() == old(View())
        invariant forall j :: 0 <= j < k ==> !Accepts(receives[r].visitors, mailbox[j])
      {
        var visitor := TryMatchVisitors(receives[r].visitors, mailbox[k]);
        if visitor.Some? {
          MatchAt(View(), r, k);
          receives := receives[r := receives[r].(storage := Some(Got(visitor.value, mailbox[k])))];
          mailbox := mailbox[..k] + mailbox[k + 1..];
          fates := fates[queued[k] := TakenBy(r)];
          queued := queued[..k] + queued[k + 1..];
          return true;
        }
        k := k + 1;
      }
      found := false;
    }

    // Matching for receive `r` takes its flag down if it succeeds.
    method TryMatch(r: nat) returns (found: bool)
      requires Shaped(View()) && r < |receives|
      modifies this`mailbox, this`receives, this`queued, this`fates
      ensures (View(), found) == Mailboxes.TryMatch(old(View()), r)
    {
      found := TryMatchMailbox(r);
      if found {
        receives := receives[r := receives[r].(active := false)];
      }
    }

    method ScheduleReceive(r: nat)
      requires r < |receives|
      modifies this`ready, this`receives
      ensures View() == Mailboxes.Schedule(old(View()), r)
    {
      ready := ready + [r];
      receives := receives[r := receives[r].(scheduled := receives[r].scheduled + 1)];
    }

    // Which receive to schedule, if any.
    method NotifyWaiterLocked() returns (wake: Option<nat>)
      requires Shaped(View())
      modifies this`mailbox, this`receives, this`queued, this`fates, this`pending
      ensures wake.Some? ==> wake.value < |receives|
      ensures NotifyWaiter(old(View())) == if wake.Some? then Schedule(View(), wake.value) else View()
    {
      if pending.None? {
        return None;
      }
      var r := pending.value;
      pending := None;
      var found := TryMatch(r);
      if found {
        return Some(r);
      }
      pending := Some(r);
      wake := None;
    }

    method EnqueueMessage(m: Message)
      requires Valid()
      modifies this
      ensures Valid() && View() == Enqueue(old(View()), m)
    {
      EnqueueKeepsInv(View(), m);
      mailbox := mailbox + [m];
      fates, queued, arrivals := fates + [Queued], queued + [|arrivals|], arrivals + [m];
      PutIsShaped(old(View()), m);
      var wake := NotifyWaiterLocked();
      if wake.Some? {
        ScheduleReceive(wake.value);
      }
    }

    method Stop(reason: Reason)
      requires Valid()
      modifies this
      ensures Valid() && View() == Mailboxes.Stop(old(View()), self, reason)
    {
      StepKeepsInv(View(), StopSelf(self, reason));
      exitReason := Some(reason);
      mailbox := mailbox + [ExitSignal(self, reason)];
      fates, queued, arrivals := fates + [Queued], queued + [|arrivals|], arrivals + [ExitSignal(self, reason)];
      PutIsShaped(old(View()).(exitReason := Some(reason)), ExitSignal(self, reason));
      var wake := NotifyWaiterLocked();
      if wake.Some? {
        ScheduleReceive(wake.value);
      }
    }

    // Awaits a message: either an outcome is there at once, or the coroutine is suspended, with a
    // timeout callback if there is one.
    method Await(visitors: seq<set<Kind>>, timed: bool) returns (outcome: Option<Outcome>)
      requires Valid() && control == Running
      modifies this
      ensures Valid() && View() == Mailboxes.Await(old(View()), visitors, timed)
      ensures |receives| == |old(receives)| + 1 && outcome == receives[|old(receives)|].storage
      ensures outcome.None? <==> control == Suspended(|old(receives)|)
    {
      AwaitKeepsInv(View(), visitors, timed);
      var r := |receives|;
      receives := receives + [Receive(visitors, timed, None, false, 0)];
      ghost var added := View();
      assert added == old(View()).(receives := old(receives) + [Receive(visitors, timed, None, false, 0)]);
      var found := TryMatch(r);
      if found {
        return receives[r].storage;
      }
      assert View() == added;
      assert receives[r := receives[r].(active := false)] == receives;
      pending := Some(r);
      if timed {
        receives := receives[r := receives[r].(active := true)];
        timers := timers + {r};
      }
      control := Suspended(r);
      outcome := None;
    }

    // The callback registered for receive `r`.
    method Timeout(r: nat)
      requires Valid() && r in timers
      modifies this
      ensures Valid() && View() == Fire(old(View()), r)
    {
      FireKeepsInv(View(), r);
      timers := timers - {r};
      if !receives[r].active {
        return;
      }
      receives := receives[r := receives[r].(active := false, storage := Some(TimedOut))];
      pending := None;
      ScheduleReceive(r);
    }

    // The scheduler resumes the coroutine, which gets what its receive ended with.
    method ResumeReceive() returns (outcome: Outcome)
      requires Valid() && ready != []
      modifies this
      ensures Valid() && View() == Resume(old(View())) && control == Running
      ensures old(ready)[0] < |receives| && receives[old(ready)[0]].storage == Some(outcome)
    {
      StepKeepsInv(View(), Resumes);
      assert AwaiterInv(View(), ready[0]);
      var r := ready[0];
      ready := ready[1..];
      control := Running;
      outcome := receives[r].storage.value;
    }
  }

  // The first acceptable message is message `k`.
  lemma MatchAt(s: Box, r: nat, k: nat)
    requires Shaped(s) && r < |s.receives| && k < |s.mailbox| && Accepts(s.receives[r].visitors, s.mailbox[k])
    requires forall j :: 0 <= j < k ==> !Accepts(s.receives[r].visitors, s.mailbox[j])
    ensures Mailboxes.TryMatch(s, r) == (Take(s, r, k), true)
  {
  }

  lemma PutIsShaped(s: Box, m: Message)
    requires Shaped(s)
    ensures Shaped(Put(s, m)) && Enqueue(s, m) == NotifyWaiter(Put(s, m))
  {
  }
}
