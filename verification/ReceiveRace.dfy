/**
  A receive whose look and whose suspension are two steps, as with senders on other threads.
*/
module ReceiveRaces {
  import opened ActorControl
  import opened Collections
  import opened Mailboxes

  // The actor may have looked into its mailbox, found nothing, and not yet be suspended. The last two
  // fields record how many messages had arrived at the latest look and at the latest suspension.
  datatype Race = Race(box: Box, looking: Option<nat>, seen: nat, parked: nat)

  // `await_ready`.
  function Look(s: Race, visitors: seq<set<Kind>>, timed: bool): Race
    requires Shaped(s.box)
  {
    var r := |s.box.receives|;
    var (matched, found) := TryMatch(s.box.(receives := s.box.receives + [Receive(visitors, timed, None, false, 0)]), r);
    s.(box := matched, looking := if found then None else Some(r), seen := |s.box.arrivals|)
  }

  // `await_suspend`, which does not look again.
  function Suspend(s: Race): Race
    requires s.looking.Some? && s.looking.value < |s.box.receives|
  {
    var r := s.looking.value;
    var awaiter := s.box.receives[r];
    s.(box := s.box.(pending := Some(r),
                     receives := s.box.receives[r := awaiter.(active := awaiter.timed)],
                     timers := if awaiter.timed then s.box.timers + {r} else s.box.timers,
                     control := Suspended(r)),
       looking := None,
       parked := |s.box.arrivals|)
  }

  datatype Action =
    | Arrives(message: Message)
    | StopsSelf(self: Ref, reason: Reason)
    | Looks(visitors: seq<set<Kind>>, timed: bool)
    | Suspends
    | Fires(receive: nat)
    | Resumes

  predicate Enabled(s: Race, a: Action) {
    match a
    case Looks(_, _) => s.box.control == Running && s.looking.None?
    case Suspends => s.looking.Some? && s.looking.value < |s.box.receives|
    case Fires(r) => r in s.box.timers
    case Resumes => s.box.ready != []
    case _ => true
  }

  function Step(s: Race, a: Action): Race
    requires Shaped(s.box) && Enabled(s, a)
  {
    match a
    case Arrives(m) => s.(box := Enqueue(s.box, m))
    case StopsSelf(self, reason) => s.(box := Stop(s.box, self, reason))
    case Looks(visitors, timed) => Look(s, visitors, timed)
    case Suspends => Suspend(s)
    case Fires(r) => s.(box := Fire(s.box, r))
    case Resumes => s.(box := Resume(s.box))
  }

  // With nothing in between, the two steps are the one step of the serial model.
  lemma LookThenSuspend(s: Race, visitors: seq<set<Kind>>, timed: bool)
    requires Shaped(s.box)
    ensures var looked := Look(s, visitors, timed);
            && (looked.looking.Some? ==> looked.looking.value < |looked.box.receives|)
            && Await(s.box, visitors, timed) == if looked.looking.Some? then Suspend(looked).box else looked.box
  {
  }

  // ----- the invariant

  // Whatever acceptable is queued arrived after the look, and all that arrived then is queued.
  ghost predicate OnlySince(box: Box, visitors: seq<set<Kind>>, seen: nat)
    requires Shaped(box)
  {
    && (forall k :: 0 <= k < |box.mailbox| && Accepts(visitors, box.mailbox[k]) ==> seen <= box.queued[k])
    && forall a :: seen <= a < |box.arrivals| ==> box.fates[a] == Queued
  }

  ghost predicate NothingFor(box: Box, visitors: seq<set<Kind>>) {
    forall k :: 0 <= k < |box.mailbox| ==> !Accepts(visitors, box.mailbox[k])
  }

  ghost predicate LookingInv(s: Race, r: nat)
    requires Shaped(s.box)
  {
    && r == |s.box.receives| - 1 && s.box.control == Running && s.box.pending == None && s.box.ready == []
    && s.seen <= |s.box.arrivals| && OnlySince(s.box, s.box.receives[r].visitors, s.seen)
  }

  // What arrives after the suspension makes the waiter look at everything.
  ghost predicate WaitingInv(s: Race, r: nat)
    requires Shaped(s.box) && r < |s.box.receives|
  {
    && s.seen <= s.parked <= |s.box.arrivals|
    && if s.parked == |s.box.arrivals| then OnlySince(s.box, s.box.receives[r].visitors, s.seen)
       else NothingFor(s.box, s.box.receives[r].visitors)
  }

  ghost predicate ControlInv(s: Race)
    requires Shaped(s.box)
  {
    if s.looking.Some? then LookingInv(s, s.looking.value)
    else match s.box.control
      case Running => s.box.pending == None && s.box.ready == []
      case Suspended(r) =>
        && r == |s.box.receives| - 1
        && if s.box.pending.Some? then s.box.pending == Some(r) && s.box.ready == [] && WaitingInv(s, r)
           else s.box.ready == [r]
  }

  // Only the waiting receive has its flag up.
  ghost predicate FlagsInv(box: Box) {
    forall r :: 0 <= r < |box.receives| && box.receives[r].active ==> box.pending == Some(r)
  }

  ghost predicate Inv(s: Race) {
    QueueInv(s.box) && FlagsInv(s.box) && ControlInv(s)
  }

  lemma InitialInv(s: Race)
    requires Mailboxes.Initial(s.box) && s.looking.None?
    ensures Inv(s)
  {
  }

  lemma LookKeepsInv(s: Race, visitors: seq<set<Kind>>, timed: bool)
    requires Inv(s) && Enabled(s, Looks(visitors, timed))
    ensures Inv(Look(s, visitors, timed))
  {
    var r := |s.box.receives|;
    var added := s.box.(receives := s.box.receives + [Receive(visitors, timed, None, false, 0)]);
    if FirstMatch(added.mailbox, visitors).Some? {
      TakeKeepsQueue(added, r, FirstMatch(added.mailbox, visitors).value);
    }
  }

  lemma SuspendKeepsInv(s: Race)
    requires Inv(s) && s.looking.Some?
    ensures s.looking.value < |s.box.receives| && Inv(Suspend(s))
  {
  }

  // An arrival finds nobody waiting: it is queued.
  lemma QueuedKeepsInv(s: Race, m: Message)
    requires Inv(s) && s.box.pending.None?
    ensures Enqueue(s.box, m) == Put(s.box, m) && Inv(s.(box := Put(s.box, m)))
  {
    PutKeepsQueue(s.box, m);
  }

  // An arrival finds a waiter, which looks at everything in the mailbox.
  lemma NotifiedKeepsInv(s: Race, m: Message)
    requires Inv(s) && s.box.pending.Some?
    ensures Inv(s.(box := Enqueue(s.box, m)))
  {
    var r, put := s.box.pending.value, Put(s.box, m).(pending := None);
    PutKeepsQueue(s.box, m);
    if FirstMatch(put.mailbox, put.receives[r].visitors).Some? {
      var k := FirstMatch(put.mailbox, put.receives[r].visitors).value;
      TakeKeepsQueue(put, r, k);
      WokenKeepsInv(s, Take(put, r, k), r);
    } else {
      assert Enqueue(s.box, m) == put.(pending := Some(r));
    }
  }

  // Receive `r` has taken a message and is scheduled.
  lemma WokenKeepsInv(s: Race, taken: Box, r: nat)
    requires Inv(s) && s.box.pending == Some(r) && QueueInv(taken) && |taken.receives| == |s.box.receives|
    requires taken.pending == None && taken.ready == s.box.ready && taken.control == s.box.control
    requires !taken.receives[r].active && forall q :: 0 <= q < |taken.receives| && q != r ==> taken.receives[q] == s.box.receives[q]
    ensures Inv(s.(box := Schedule(taken, r)))
  {
  }

  lemma ArrivalKeepsInv(s: Race, m: Message)
    requires Inv(s)
    ensures Inv(s.(box := Enqueue(s.box, m)))
  {
    if s.box.pending.None? { QueuedKeepsInv(s, m); } else { NotifiedKeepsInv(s, m); }
  }

  lemma FireKeepsInv(s: Race, r: nat)
    requires Inv(s) && r in s.box.timers
    ensures Inv(s.(box := Fire(s.box, r)))
  {
  }

  lemma StepKeepsInv(s: Race, a: Action)
    requires Inv(s) && Enabled(s, a)
    ensures Inv(Step(s, a))
  {
    match a
    case Arrives(m) => ArrivalKeepsInv(s, m);
    case StopsSelf(self, reason) =>
      var marked := s.(box := s.box.(exitReason := Some(reason)));
      assert Inv(marked);
      ArrivalKeepsInv(marked, ExitSignal(self, reason));
    case Looks(visitors, timed) => LookKeepsInv(s, visitors, timed);
    case Suspends => SuspendKeepsInv(s);
    case Fires(r) => FireKeepsInv(s, r);
    case Resumes =>
  }

  // ----- whole runs

  ghost predicate IsRun(states: seq<Race>, actions: seq<Action>) {
    && |states| == |actions| + 1
    && forall i :: 0 <= i < |actions| ==>
         Shaped(states[i].box) && Enabled(states[i], actions[i]) && states[i + 1] == Step(states[i], actions[i])
  }

  lemma {:induction false} RunKeepsInv(states: seq<Race>, actions: seq<Action>, i: nat)
    requires IsRun(states, actions) && Inv(states[0]) && i <= |actions|
    ensures Inv(states[i])
  {
    if i > 0 {
      RunKeepsInv(states, actions, i - 1);
      assert states[i - 1 + 1] == Step(states[i - 1], actions[i - 1]);
      StepKeepsInv(states[i - 1], actions[i - 1]);
    }
  }

  ghost predicate HasMessageFor(box: Box, r: nat)
    requires r < |box.receives|
  {
    exists k :: 0 <= k < |box.mailbox| && Accepts(box.receives[r].visitors, box.mailbox[k])
  }

  // In any run a receive waits although a message it accepts is queued if and only if such a message
  // arrived between its look and its suspension, and nothing at all has arrived since.
  lemma WaitsInVainExactly(states: seq<Race>, actions: seq<Action>, i: nat, r: nat)
    requires IsRun(states, actions) && Mailboxes.Initial(states[0].box) && states[0].looking.None? && i <= |actions|
    requires states[i].box.pending == Some(r)
    ensures var s := states[i];
            && r < |s.box.receives| && s.seen <= s.parked <= |s.box.arrivals|
            && (HasMessageFor(s.box, r) <==>
                 && s.parked == |s.box.arrivals|
                 && exists a :: s.seen <= a < s.parked && Accepts(s.box.receives[r].visitors, s.box.arrivals[a]))
  {
    InitialInv(states[0]);
    RunKeepsInv(states, actions, i);
    var s := states[i];
    var visitors := s.box.receives[r].visitors;
    if k: nat :| k < |s.box.mailbox| && Accepts(visitors, s.box.mailbox[k]) {
      assert s.box.arrivals[s.box.queued[k]] == s.box.mailbox[k];
    }
    if a: nat :| s.seen <= a < s.parked == |s.box.arrivals| && Accepts(visitors, s.box.arrivals[a]) {
      assert a in s.box.queued;
      var k :| 0 <= k < |s.box.queued| && s.box.queued[k] == a;
      assert s.box.mailbox[k] == s.box.arrivals[a];
    }
  }

  // Such a receive is woken by the next arrival, whatever it is.
  lemma AnyArrivalWakes(s: Race, r: nat, m: Message)
    requires Inv(s) && s.box.pending == Some(r) && HasMessageFor(s.box, r)
    ensures var s' := Step(s, Arrives(m));
            && s'.box.pending == None && s'.box.ready == [r]
            && s'.box.receives[r].storage.Some? && s'.box.receives[r].storage.value.Got?
  {
    var k :| 0 <= k < |s.box.mailbox| && Accepts(s.box.receives[r].visitors, s.box.mailbox[k]);
    assert (s.box.mailbox + [m])[k] == s.box.mailbox[k];
  }

  // ----- what is sent

  function SentBy(a: Action): seq<Message> {
    match a
    case Arrives(m) => [m]
    case StopsSelf(self, reason) => [ExitSignal(self, reason)]
    case _ => []
  }

  // Everything sent, in order.
  function Sent(actions: seq<Action>): seq<Message> {
    if actions == [] then [] else Sent(actions[..|actions| - 1]) + SentBy(actions[|actions| - 1])
  }

  lemma StepSends(s: Race, a: Action)
    requires Shaped(s.box) && Enabled(s, a)
    ensures Step(s, a).box.arrivals == s.box.arrivals + SentBy(a)
    ensures Step(s, a).box.exitReason == if a.StopsSelf? then Some(a.reason) else s.box.exitReason
  {
  }

  // In any run what has arrived is what was sent, in that order, the exit signals of stops included.
  lemma {:induction false} SentArrives(states: seq<Race>, actions: seq<Action>, i: nat)
    requires IsRun(states, actions) && Mailboxes.Initial(states[0].box) && i <= |actions|
    ensures states[i].box.arrivals == Sent(actions[..i])
  {
    if i > 0 {
      SentArrives(states, actions, i - 1);
      assert Enabled(states[i - 1], actions[i - 1]) && states[i - 1 + 1] == Step(states[i - 1], actions[i - 1]);
      assert actions[..i][..i - 1] == actions[..i - 1];
      StepSends(states[i - 1], actions[i - 1]);
    }
  }

  // Whatever is sent, a stop's exit signal too, makes a suspended receive look: it takes the first
  // message it accepts of those queued and the new one, and is scheduled.
  lemma SentWakes(s: Race, a: Action, m: Message, r: nat) returns (k: nat)
    requires Inv(s) && SentBy(a) == [m] && s.box.pending == Some(r)
    requires HasMessageFor(s.box, r) || Accepts(s.box.receives[r].visitors, m)
    ensures var box, box', queue := s.box, Step(s, a).box, s.box.mailbox + [m];
            && k < |queue| && Accepts(box.receives[r].visitors, queue[k])
            && (forall j :: 0 <= j < k ==> !Accepts(box.receives[r].visitors, queue[j]))
            && box'.mailbox == queue[..k] + queue[k + 1..]
            && box'.pending == None && box'.ready == [r]
            && |box'.receives| == |box.receives| && GotIt(box'.receives[r], queue[k])
  {
    var put := Put(s.box, m).(pending := None);
    if HasMessageFor(s.box, r) {
      var j :| 0 <= j < |s.box.mailbox| && Accepts(s.box.receives[r].visitors, s.box.mailbox[j]);
      assert put.mailbox[j] == s.box.mailbox[j];
    } else {
      assert put.mailbox[|s.box.mailbox|] == m;
    }
    k := FirstMatch(put.mailbox, put.receives[r].visitors).value;
  }

  // With nothing for a waiting receive, or nobody waiting, it goes to the end of the mailbox.
  lemma SentIsQueued(s: Race, a: Action, m: Message)
    requires Inv(s) && SentBy(a) == [m]
    requires s.box.pending.Some? ==>
               !HasMessageFor(s.box, s.box.pending.value) && !Accepts(s.box.receives[s.box.pending.value].visitors, m)
    ensures var box, box' := s.box, Step(s, a).box;
            && box'.mailbox == box.mailbox + [m] && box'.pending == box.pending && box'.receives == box.receives
            && box'.ready == box.ready && box'.control == box.control
  {
    if s.box.pending.Some? {
      var put := Put(s.box, m);
      assert forall k :: 0 <= k < |put.mailbox| ==> !Accepts(put.receives[s.box.pending.value].visitors, put.mailbox[k]);
    }
  }

  // ----- a lost wake-up

  function NewBox(): Box {
    Box([], None, None, [], {}, [], Running, [], [], [])
  }

  function New(): Race {
    Race(NewBox(), None, 0, 0)
  }

  function HasLooked(): Race {
    Race(NewBox().(receives := [Receive([{UserKind(0)}], false, None, false, 0)]), Some(0), 0, 0)
  }

  function Missed(body: Body): Race {
    HasLooked().(box := HasLooked().box.(mailbox := [User(0, body)], arrivals := [User(0, body)], queued := [0], fates := [Queued]))
  }

  function Stuck(body: Body): Race {
    Race(Missed(body).box.(pending := Some(0), control := Suspended(0)), None, 0, 1)
  }

  // The message arrives between the look and the suspension; the receive that accepts it waits, and
  // nobody has been scheduled.
  lemma LostWakeUp(body: Body)
    ensures Mailboxes.Initial(New().box)
    ensures IsRun([New(), HasLooked(), Missed(body), Stuck(body)], [Looks([{UserKind(0)}], false), Arrives(User(0, body)), Suspends])
    ensures Stuck(body).box.pending == Some(0) && Stuck(body).box.ready == [] && HasMessageFor(Stuck(body).box, 0)
  {
    var m := User(0, body);
    assert [] + [m] == [m] && [] + [Queued] == [Queued] && [] + [0] == [0];
    assert Step(New(), Looks([{UserKind(0)}], false)) == HasLooked();
    assert Step(HasLooked(), Arrives(m)) == Missed(body);
    assert Step(Missed(body), Suspends) == Stuck(body);
    assert KindOf(m) in Stuck(body).box.receives[0].visitors[0];
    assert Accepts(Stuck(body).box.receives[0].visitors, Stuck(body).box.mailbox[0]);
  }
}
