/**
  An actor's mailbox and its selective receive, under a serial scheduler.
*/
module Mailboxes {
  import opened ActorControl
  import opened Collections

  type Body(==, !new)

  // The alternatives of the message variant.
  datatype Kind = UserKind(tag: nat) | ExitKind | DownKind
  datatype Message = User(tag: nat, body: Body) | ExitSignal(from: Ref, reason: Reason) | DownSignal(from: Ref, reason: Reason)

  function KindOf(m: Message): Kind {
    match m
    case User(tag, _) => UserKind(tag)
    case ExitSignal(_, _) => ExitKind
    case DownSignal(_, _) => DownKind
  }

  // What a receive ends with: the message and the visitor it went to, or the timeout value.
  datatype Outcome = Got(visitor: nat, message: Message) | TimedOut

  // An awaiter: the kinds each visitor takes, its storage, its one-shot flag, and how often its
  // coroutine has been scheduled.
  datatype Receive = Receive(visitors: seq<set<Kind>>, timed: bool, storage: Option<Outcome>, active: bool, scheduled: nat)

  datatype Control = Running | Suspended(receive: nat)
  datatype Fate = Queued | TakenBy(receive: nat)

  // What the actor object holds together with its awaiters, the callbacks registered for them, and
  // what it has handed to the scheduler. The last three fields record history.
  datatype Box = Box(
    mailbox: seq<Message>,
    pending: Option<nat>,
    exitReason: Option<Reason>,
    receives: seq<Receive>,
    timers: set<nat>,           // receives whose timeout callback has not run yet
    ready: seq<nat>,            // receives whose coroutine has been scheduled and not yet resumed
    control: Control,
    arrivals: seq<Message>,     // every message ever put into the mailbox
    queued: seq<nat>,           // for each message in the mailbox, which arrival it is
    fates: seq<Fate>)           // what became of each arrival

  // ----- matching

  predicate Accepts(visitors: seq<set<Kind>>, m: Message) {
    exists v :: 0 <= v < |visitors| && KindOf(m) in visitors[v]
  }

  // The first visitor that takes the message.
  function FirstVisitor(visitors: seq<set<Kind>>, m: Message): (v: Option<nat>)
    ensures match v
            case Some(v) => v < |visitors| && KindOf(m) in visitors[v] && forall u :: 0 <= u < v ==>
                 KindOf(m) !in visitors[u]
            case None => !Accepts(visitors, m)
  {
    if visitors == [] then None
    else if KindOf(m) in visitors[0] then Some(0)
    else match FirstVisitor(visitors[1..], m)
      case Some(v) => Some(v + 1)
      case None => None
  }

  // The first message that any visitor takes.
  function FirstMatch(mailbox: seq<Message>, visitors: seq<set<Kind>>): (k: Option<nat>)
    ensures match k
            case Some(k) => k < |mailbox| && Accepts(visitors, mailbox[k]) && forall j :: 0 <= j < k ==>
                 !Accepts(visitors, mailbox[j])
            case None => forall j :: 0 <= j < |mailbox| ==> !Accepts(visitors, mailbox[j])
  {
    if mailbox == [] then None
    else if Accepts(visitors, mailbox[0]) then Some(0)
    else match FirstMatch(mailbox[1..], visitors)
      case Some(k) => Some(k + 1)
      case None => None
  }

  // ----- operations

  predicate Shaped(s: Box) {
    && |s.queued| == |s.mailbox| && |s.fates| == |s.arrivals|
    && (forall k :: 0 <= k < |s.queued| ==> s.queued[k] < |s.arrivals|)
    && (forall r :: r in s.timers ==> r < |s.receives|)
    && (s.pending.Some? ==> s.pending.value < |s.receives|)
  }

  // Receive `r` takes message `k`.
  function Take(s: Box, r: nat, k: nat): Box
    requires Shaped(s) && r < |s.receives| && k < |s.mailbox| && Accepts(s.receives[r].visitors, s.mailbox[k])
  {
    var m, awaiter := s.mailbox[k], s.receives[r];
    s.(mailbox := s.mailbox[..k] + s.mailbox[k + 1..],
       receives := s.receives[r := awaiter.(storage := Some(Got(FirstVisitor(awaiter.visitors, m).value, m)), active := false)],
       queued := s.queued[..k] + s.queued[k + 1..],
       fates := s.fates[s.queued[k] := TakenBy(r)])
  }

  function TryMatch(s: Box, r: nat): (Box, bool)
    requires Shaped(s) && r < |s.receives|
  {
    match FirstMatch(s.mailbox, s.receives[r].visitors)
    case None => (s, false)
    case Some(k) => (Take(s, r, k), true)
  }

  function Schedule(s: Box, r: nat): Box
    requires r < |s.receives|
  {
    s.(ready := s.ready + [r], receives := s.receives[r := s.receives[r].(scheduled := s.receives[r].scheduled + 1)])
  }

  function NotifyWaiter(s: Box): Box
    requires Shaped(s)
  {
    match s.pending
    case None => s
    case Some(r) =>
      var (matched, found) := TryMatch(s.(pending := None), r);
      if found then Schedule(matched, r) else matched.(pending := Some(r))
  }

  function Enqueue(s: Box, m: Message): Box
    requires Shaped(s)
  {
    NotifyWaiter(s.(mailbox := s.mailbox + [m],
                    arrivals := s.arrivals + [m],
                    queued := s.queued + [|s.arrivals|],
                    fates := s.fates + [Queued]))
  }

  function Stop(s: Box, self: Ref, reason: Reason): Box
    requires Shaped(s)
  {
    Enqueue(s.(exitReason := Some(reason)), ExitSignal(self, reason))
  }

  // The actor awaits a message: `await_ready`, and if that finds nothing `await_suspend`, before
  // anything else happens.
  function Await(s: Box, visitors: seq<set<Kind>>, timed: bool): Box
    requires Shaped(s)
  {
    var r := |s.receives|;
    var (matched, found) := TryMatch(s.(receives := s.receives + [Receive(visitors, timed, None, false, 0)]), r);
    if found then matched
    else matched.(pending := Some(r),
                  receives := matched.receives[r := matched.receives[r].(active := timed)],
                  timers := if timed then matched.timers + {r} else matched.timers,
                  control := Suspended(r))
  }

  // The timeout callback of receive `r`.
  function Fire(s: Box, r: nat): Box
    requires r < |s.receives|
  {
    var fired := s.(timers := s.timers - {r});
    if !s.receives[r].active then fired
    else Schedule(fired.(pending := None,
                         receives := fired.receives[r := fired.receives[r].(active := false, storage := Some(TimedOut))]), r)
  }

  function Resume(s: Box): Box
    requires s.ready != []
  {
    s.(ready := s.ready[1..], control := Running)
  }

  datatype Action =
    | Arrive(message: Message)
    | StopSelf(self: Ref, reason: Reason)
    | Receives(visitors: seq<set<Kind>>, timed: bool)
    | Fires(receive: nat)
    | Resumes

  // The actor receives only while it runs; a callback runs once; the scheduler resumes what it was
  // handed.
  predicate Enabled(s: Box, a: Action) {
    match a
    case Receives(_, _) => s.control == Running
    case Fires(r) => r in s.timers
    case Resumes => s.ready != []
    case _ => true
  }

  function Step(s: Box, a: Action): Box
    requires Shaped(s) && Enabled(s, a)
  {
    match a
    case Arrive(m) => Enqueue(s, m)
    case StopSelf(self, reason) => Stop(s, self, reason)
    case Receives(visitors, timed) => Await(s, visitors, timed)
    case Fires(r) => Fire(s, r)
    case Resumes => Resume(s)
  }

  // ----- the invariant

  // The mailbox holds, in order of arrival, exactly the arrivals that no receive took.
  ghost predicate QueueInv(s: Box) {
    && Shaped(s)
    && (forall k :: 0 <= k < |s.queued| ==> s.mailbox[k] == s.arrivals[s.queued[k]] && s.fates[s.queued[k]] == Queued)
    && (forall j, k :: 0 <= j < k < |s.queued| ==> s.queued[j] < s.queued[k])
    && (forall i :: 0 <= i < |s.fates| && s.fates[i] == Queued ==> i in s.queued)
  }

  // The receive ended with this message, handed to the first visitor that takes it.
  ghost predicate GotIt(receive: Receive, m: Message) {
    && receive.storage.Some? && receive.storage.value.Got? && receive.storage.value.message == m
    && FirstVisitor(receive.visitors, m) == Some(receive.storage.value.visitor)
  }

  // Receive `r` took arrival `i`, and every earlier arrival it could have taken had gone to an
  // earlier receive.
  ghost predicate TookEarliest(s: Box, r: nat, i: nat)
    requires Shaped(s) && i < |s.arrivals|
  {
    && r < |s.receives| && GotIt(s.receives[r], s.arrivals[i])
    && forall j :: 0 <= j < i && Accepts(s.receives[r].visitors, s.arrivals[j]) ==> s.fates[j].TakenBy? && s.fates[j].receive < r
  }

  ghost predicate TookInv(s: Box)
    requires Shaped(s)
  {
    && (forall i :: 0 <= i < |s.fates| && s.fates[i].TakenBy? ==> TookEarliest(s, s.fates[i].receive, i))
    && (forall i, j :: 0 <= i < j < |s.fates| && s.fates[i].TakenBy? ==> s.fates[i] != s.fates[j])
  }

  // The one receive that may be waiting is the latest; its flag is up while it waits, if it has a
  // timeout; the others have ended.
  ghost predicate AwaiterInv(s: Box, r: nat)
    requires r < |s.receives|
  {
    var waiting, receive := s.pending == Some(r), s.receives[r];
    && (receive.storage.None? <==> waiting)
    && (receive.active <==> waiting && receive.timed)
    && (receive.active ==> r in s.timers)
    && (r in s.timers ==> receive.timed)
    && (receive.storage == Some(TimedOut) ==> receive.timed)
    && receive.scheduled <= if waiting then 0 else 1
  }

  // A waiting actor has nothing acceptable in its mailbox; an actor that no longer waits is
  // scheduled, once, for the receive it is suspended in.
  ghost predicate ControlInv(s: Box) {
    match s.control
    case Running => s.pending == None && s.ready == []
    case Suspended(r) =>
      && r == |s.receives| - 1
      && if s.pending.Some? then
           && s.pending == Some(r) && s.ready == []
           && forall k :: 0 <= k < |s.mailbox| ==> !Accepts(s.receives[r].visitors, s.mailbox[k])
         else
           s.ready == [r] && s.receives[r].scheduled == 1
  }

  ghost predicate Inv(s: Box) {
    && QueueInv(s)
    && TookInv(s)
    && (forall r :: 0 <= r < |s.receives| ==> AwaiterInv(s, r))
    && ControlInv(s)
  }

  ghost predicate Initial(s: Box) {
    && s.mailbox == [] && s.pending == None && s.receives == [] && s.timers == {} && s.ready == []
    && s.control == Running && s.arrivals == [] && s.queued == [] && s.fates == []
  }

  // ----- taking a message

  lemma TakeKeepsQueue(s: Box, r: nat, k: nat)
    requires QueueInv(s) && r < |s.receives| && k < |s.mailbox| && Accepts(s.receives[r].visitors, s.mailbox[k])
    ensures QueueInv(Take(s, r, k))
  {
    var s' := Take(s, r, k);
    forall j | 0 <= j < |s'.queued|
      ensures s'.queued[j] == s.queued[if j < k then j else j + 1] && s'.mailbox[j] == s.mailbox[if j < k then j else j + 1]
    {
    }
    forall i | 0 <= i < |s'.fates| && s'.fates[i] == Queued
      ensures i in s'.queued
    {
      StillQueued(s.queued, k, i);
    }
  }

  lemma StillQueued(queued: seq<nat>, k: nat, i: nat)
    requires k < |queued| && i in queued && i != queued[k]
    ensures i in queued[..k] + queued[k + 1..]
  {
    AroundOne(queued, k);
  }

  // Everything that arrived before the first acceptable message and is acceptable has gone to an
  // earlier receive.
  lemma EarlierIsGone(s: Box, r: nat, k: nat, j: nat)
    requires QueueInv(s) && TookInv(s) && r == |s.receives| - 1 && s.receives[r].storage.None?
    requires k < |s.mailbox| && j < s.queued[k] && Accepts(s.receives[r].visitors, s.arrivals[j])
    requires forall i :: 0 <= i < k ==> !Accepts(s.receives[r].visitors, s.mailbox[i])
    ensures s.fates[j].TakenBy? && s.fates[j].receive < r
  {
    assert j !in s.queued by {
      forall q | 0 <= q < |s.queued|
        ensures s.queued[q] != j
      {
        assert s.mailbox[q] == s.arrivals[s.queued[q]];
        assert q >= k ==> s.queued[q] >= s.queued[k];
      }
    }
    assert TookEarliest(s, s.fates[j].receive, j);
  }

  lemma TakeKeepsTook(s: Box, r: nat, k: nat)
    requires QueueInv(s) && TookInv(s) && r == |s.receives| - 1 && s.receives[r].storage.None?
    requires FirstMatch(s.mailbox, s.receives[r].visitors) == Some(k)
    ensures Shaped(Take(s, r, k)) && TookInv(Take(s, r, k))
  {
    var s', i := Take(s, r, k), s.queued[k];
    TakeKeepsQueue(s, r, k);
    forall j | 0 <= j < |s'.fates| && s'.fates[j].TakenBy?
      ensures TookEarliest(s', s'.fates[j].receive, j)
    {
      if j == i {
        TakenIsEarliest(s, r, k);
      } else {
        assert TookEarliest(s, s.fates[j].receive, j);
        assert s.fates[j].receive != r;
      }
    }
    forall j, l | 0 <= j < l < |s'.fates| && s'.fates[j].TakenBy?
      ensures s'.fates[j] != s'.fates[l]
    {
      if j != i { assert TookEarliest(s, s.fates[j].receive, j); }
      if l != i && s.fates[l].TakenBy? { assert TookEarliest(s, s.fates[l].receive, l); }
    }
  }

  lemma TakenIsEarliest(s: Box, r: nat, k: nat)
    requires QueueInv(s) && TookInv(s) && r == |s.receives| - 1 && s.receives[r].storage.None?
    requires FirstMatch(s.mailbox, s.receives[r].visitors) == Some(k)
    ensures Shaped(Take(s, r, k)) && TookEarliest(Take(s, r, k), r, s.queued[k])
  {
    forall j | 0 <= j < s.queued[k] && Accepts(s.receives[r].visitors, s.arrivals[j])
      ensures s.fates[j].TakenBy? && s.fates[j].receive < r
    {
      EarlierIsGone(s, r, k, j);
    }
  }

  // What matching does for the latest receive, not ended so far.
  lemma TryMatchOutcome(s: Box, r: nat)
    requires QueueInv(s) && TookInv(s) && r == |s.receives| - 1 && s.receives[r].storage.None?
    ensures var (s', found) := TryMatch(s, r);
            && QueueInv(s') && TookInv(s')
            && (found ==> s'.receives[r].storage.Some? && s'.receives[r].storage.value.Got? && !s'.receives[r].active)
            && (!found ==> s' == s && forall k :: 0 <= k < |s.mailbox| ==> !Accepts(s.receives[r].visitors, s.mailbox[k]))
            && |s'.receives| == |s.receives| && s'.receives[..r] == s.receives[..r]
            && s'.receives[r] == s.receives[r].(storage := s'.receives[r].storage, active := s'.receives[r].active)
            && s'.timers == s.timers && s'.ready == s.ready && s'.control == s.control && s'.pending == s.pending
  {
    if FirstMatch(s.mailbox, s.receives[r].visitors).Some? {
      var k := FirstMatch(s.mailbox, s.receives[r].visitors).value;
      TakeKeepsQueue(s, r, k);
      TakeKeepsTook(s, r, k);
    }
  }

  // ----- each operation keeps the invariant

  // Changing flags of awaiters other than their visitors and storage.
  lemma SameOutcomesKeepTook(s: Box, s': Box)
    requires Shaped(s) && TookInv(s) && Shaped(s') && s'.arrivals == s.arrivals && s'.fates == s.fates
    requires |s'.receives| >= |s.receives|
    requires forall r :: 0 <= r < |s.receives| && s.receives[r].storage.Some? ==>
               s'.receives[r].visitors == s.receives[r].visitors && s'.receives[r].storage == s.receives[r].storage
    ensures TookInv(s')
  {
  }

  function Put(s: Box, m: Message): Box {
    s.(mailbox := s.mailbox + [m], arrivals := s.arrivals + [m], queued := s.queued + [|s.arrivals|], fates := s.fates + [Queued])
  }

  lemma PutKeepsQueue(s: Box, m: Message)
    requires QueueInv(s)
    ensures QueueInv(Put(s, m))
  {
  }

  lemma PutKeepsTook(s: Box, m: Message)
    requires Shaped(s) && TookInv(s) && Shaped(Put(s, m))
    ensures TookInv(Put(s, m))
  {
  }

  lemma EnqueueKeepsInv(s: Box, m: Message)
    requires Inv(s)
    ensures Inv(Enqueue(s, m))
  {
    PutKeepsQueue(s, m);
    PutKeepsTook(s, m);
    var put := Put(s, m);
    if s.pending.Some? {
      var r := s.pending.value;
      assert AwaiterInv(s, r);
      NotifyKeepsInv(s, put);
    } else {
      forall r | 0 <= r < |s.receives| ensures AwaiterInv(put, r) { assert AwaiterInv(s, r); }
    }
  }

  // A waiting actor is told of a message.
  lemma NotifyKeepsInv(s: Box, put: Box)
    requires Inv(s) && s.pending.Some?
    requires QueueInv(put) && TookInv(put) && put.receives == s.receives && put.pending == s.pending
    requires put.timers == s.timers && put.ready == s.ready && put.control == s.control
    ensures Inv(NotifyWaiter(put))
  {
    var r, s' := s.pending.value, NotifyWaiter(put);
    assert AwaiterInv(s, r);
    TryMatchOutcome(put.(pending := None), r);
    var (matched, found) := TryMatch(put.(pending := None), r);
    if found {
      WakingKeepsInv(s, matched, r);
    } else {
      assert s' == put;
      StillAwaiting(s, put);
      assert ControlInv(put);
    }
  }

  // Receive `r` was waiting and has been matched.
  lemma WakingKeepsInv(s: Box, matched: Box, r: nat)
    requires s.pending == Some(r) && r == |s.receives| - 1 && ControlInv(s)
    requires forall q :: 0 <= q < |s.receives| ==> AwaiterInv(s, q)
    requires QueueInv(matched) && TookInv(matched)
    requires |matched.receives| == |s.receives| && matched.receives[..r] == s.receives[..r]
    requires matched.receives[r] == s.receives[r].(storage := matched.receives[r].storage, active := false)
    requires matched.receives[r].storage.Some? && matched.receives[r].storage.value.Got?
    requires matched.pending == None && matched.timers == s.timers && matched.ready == s.ready &&
              matched.control == s.control
    ensures Inv(Schedule(matched, r))
  {
    var s' := Schedule(matched, r);
    assert s'.receives[..r] == matched.receives[..r];
    assert AwaiterInv(s, r);
    SameOutcomesKeepTook(matched, s');
    OthersKeepAwaiting(s, s', r);
  }

  lemma StillAwaiting(s: Box, s': Box)
    requires s'.receives == s.receives && s'.pending == s.pending && s'.timers == s.timers
    requires forall q :: 0 <= q < |s.receives| ==> AwaiterInv(s, q)
    ensures forall q :: 0 <= q < |s'.receives| ==> AwaiterInv(s', q)
  {
    forall q | 0 <= q < |s'.receives| ensures AwaiterInv(s', q) { assert AwaiterInv(s, q); }
  }

  // The waiting receive ends; the others are as they were.
  lemma OthersKeepAwaiting(s: Box, s': Box, r: nat)
    requires r < |s.receives| == |s'.receives| && s.pending == Some(r) && s'.pending == None && s'.timers == s.timers
    requires forall q :: 0 <= q < |s.receives| ==> AwaiterInv(s, q)
    requires s'.receives[..r] == s.receives[..r] && r == |s.receives| - 1
    requires AwaiterInv(s', r)
    ensures forall q :: 0 <= q < |s'.receives| ==> AwaiterInv(s', q)
  {
    forall q | 0 <= q < |s'.receives| ensures AwaiterInv(s', q) {
      assert AwaiterInv(s, q);
      assert q < r ==> s'.receives[..r][q] == s.receives[..r][q];
    }
  }

  lemma AwaitKeepsInv(s: Box, visitors: seq<set<Kind>>, timed: bool)
    requires Inv(s) && s.control == Running
    ensures Inv(Await(s, visitors, timed))
  {
    var r, s' := |s.receives|, Await(s, visitors, timed);
    var added := s.(receives := s.receives + [Receive(visitors, timed, None, false, 0)]);
    SameOutcomesKeepTook(s, added);
    TryMatchOutcome(added, r);
    var (matched, found) := TryMatch(added, r);
    assert s'.receives[..r] == matched.receives[..r] == s.receives;
    if !found {
      SameOutcomesKeepTook(matched, s');
    }
    forall q | 0 <= q < |s'.receives| ensures AwaiterInv(s', q) {
      if q < r {
        assert AwaiterInv(s, q);
        assert s'.receives[..r][q] == s.receives[q];
      }
    }
  }

  lemma FireKeepsInv(s: Box, r: nat)
    requires Inv(s) && r in s.timers
    ensures Inv(Fire(s, r))
  {
    var s' := Fire(s, r);
    assert AwaiterInv(s, r);
    SameOutcomesKeepTook(s, s');
    forall q | 0 <= q < |s'.receives| ensures AwaiterInv(s', q) { assert AwaiterInv(s, q); }
  }

  lemma StepKeepsInv(s: Box, a: Action)
    requires Inv(s) && Enabled(s, a)
    ensures Inv(Step(s, a))
  {
    match a
    case Arrive(m) => EnqueueKeepsInv(s, m);
    case StopSelf(self, reason) =>
      var marked := s.(exitReason := Some(reason));
      assert forall r :: 0 <= r < |s.receives| ==> AwaiterInv(marked, r) == AwaiterInv(s, r);
      SameOutcomesKeepTook(s, marked);
      EnqueueKeepsInv(marked, ExitSignal(self, reason));
    case Receives(visitors, timed) => AwaitKeepsInv(s, visitors, timed);
    case Fires(r) => FireKeepsInv(s, r);
    case Resumes =>
      var s' := Resume(s);
      SameOutcomesKeepTook(s, s');
      assert forall r :: 0 <= r < |s.receives| ==> AwaiterInv(s', r) == AwaiterInv(s, r);
  }

  // ----- whole runs

  ghost predicate IsRun(states: seq<Box>, actions: seq<Action>) {
    && |states| == |actions| + 1
    && forall i :: 0 <= i < |actions| ==>
         Shaped(states[i]) && Enabled(states[i], actions[i]) && states[i + 1] == Step(states[i], actions[i])
  }

  lemma {:induction false} RunKeepsInv(states: seq<Box>, actions: seq<Action>, i: nat)
    requires IsRun(states, actions) && Inv(states[0]) && i <= |actions|
    ensures Inv(states[i])
  {
    if i > 0 {
      RunKeepsInv(states, actions, i - 1);
      assert states[i - 1 + 1] == Step(states[i - 1], actions[i - 1]);
      StepKeepsInv(states[i - 1], actions[i - 1]);
    }
  }

  lemma InitialInv(s: Box)
    requires Initial(s)
    ensures Inv(s)
  {
  }

  // In any run, every message sent is either still queued, once, or was taken by exactly one
  // receive; and what is queued is in order of arrival.
  lemma SentIsQueuedOrTaken(states: seq<Box>, actions: seq<Action>, i: nat, a: nat)
    requires IsRun(states, actions) && Initial(states[0]) && i <= |actions| && a < |states[i].arrivals|
    ensures var s := states[i];
            && Shaped(s)
            && (s.fates[a] == Queued <==> exists k :: 0 <= k < |s.mailbox| && s.queued[k] == a && s.mailbox[k] == s.arrivals[a])
            && (forall j, k :: 0 <= j < k < |s.queued| ==> s.queued[j] < s.queued[k])
            && (s.fates[a].TakenBy? ==> s.fates[a].receive < |s.receives| && GotIt(s.receives[s.fates[a].receive], s.arrivals[a]))
            && forall b :: 0 <= b < |s.arrivals| && b != a && s.fates[a].TakenBy? ==> s.fates[b] != s.fates[a]
  {
    RunKeepsInv(states, actions, i);
    var s := states[i];
    if s.fates[a] == Queued {
      var k :| 0 <= k < |s.queued| && s.queued[k] == a;
    } else {
      assert TookEarliest(s, s.fates[a].receive, a);
    }
  }

  // In any run, a receive takes the earliest arrival it accepts: whatever acceptable arrived before
  // what it took had been taken by an earlier receive.
  lemma ReceivesInOrder(states: seq<Box>, actions: seq<Action>, i: nat, a: nat, b: nat)
    requires IsRun(states, actions) && Initial(states[0]) && i <= |actions| && a < b < |states[i].arrivals|
    requires |states[i].fates| == |states[i].arrivals| && states[i].fates[b].TakenBy?
    ensures var s, r := states[i], states[i].fates[b].receive;
            r < |s.receives| &&
            (Accepts(s.receives[r].visitors, s.arrivals[a]) ==> s.fates[a].TakenBy? && s.fates[a].receive < r)
  {
    RunKeepsInv(states, actions, i);
    assert TookEarliest(states[i], states[i].fates[b].receive, b);
  }

  // A waiting receive never coexists with a message it accepts.
  lemma NeverWaitsInVain(states: seq<Box>, actions: seq<Action>, i: nat, k: nat)
    requires IsRun(states, actions) && Initial(states[0]) && i <= |actions|
    requires states[i].pending.Some? && k < |states[i].mailbox|
    ensures states[i].pending.value < |states[i].receives|
    ensures !Accepts(states[i].receives[states[i].pending.value].visitors, states[i].mailbox[k])
  {
    RunKeepsInv(states, actions, i);
  }

  // Whoever is resumed was suspended in that receive, has been scheduled for it exactly once, and
  // finds exactly one outcome: a message, or, if it has a timeout, the timeout value.
  lemma ResumedOnceWithOneOutcome(states: seq<Box>, actions: seq<Action>, i: nat)
    requires IsRun(states, actions) && Initial(states[0]) && i <= |actions| && states[i].ready != []
    ensures var s, r := states[i], states[i].ready[0];
            && s.ready == [r] && s.control == Suspended(r) && s.pending == None
            && r < |s.receives| && s.receives[r].scheduled == 1 && s.receives[r].storage.Some?
            && (s.receives[r].storage.value == TimedOut ==> s.receives[r].timed)
  {
    RunKeepsInv(states, actions, i);
    assert AwaiterInv(states[i], states[i].ready[0]);
  }

  // Ended: its outcome is settled, its flag is down and it will not be scheduled again.
  lemma EndedStaysEnded(s: Box, a: Action, r: nat)
    requires Inv(s) && Enabled(s, a) && r < |s.receives| && s.receives[r].storage.Some?
    ensures r < |Step(s, a).receives| && Step(s, a).receives[r] == s.receives[r]
  {
    assert AwaiterInv(s, r);
    assert !s.receives[r].active && s.pending != Some(r);
  }

  lemma {:induction false} OutcomesAreFinal(states: seq<Box>, actions: seq<Action>, i: nat, j: nat, r: nat)
    requires IsRun(states, actions) && Initial(states[0]) && i <= j <= |actions|
    requires r < |states[i].receives| && states[i].receives[r].storage.Some?
    ensures r < |states[j].receives| && states[j].receives[r] == states[i].receives[r]
    decreases j
  {
    if i < j {
      var k := j - 1;
      OutcomesAreFinal(states, actions, i, k, r);
      FinalAtStep(states, actions, k, r);
    }
  }

  lemma FinalAtStep(states: seq<Box>, actions: seq<Action>, i: nat, r: nat)
    requires IsRun(states, actions) && Initial(states[0]) && i < |actions|
    requires r < |states[i].receives| && states[i].receives[r].storage.Some?
    ensures r < |states[i + 1].receives| && states[i + 1].receives[r] == states[i].receives[r]
  {
    RunKeepsInv(states, actions, i);
    assert states[i + 1] == Step(states[i], actions[i]);
    EndedStaysEnded(states[i], actions[i], r);
  }

  // A timeout callback that is not for the waiting receive does nothing; one that is ends it.
  lemma StaleTimerDoesNothing(s: Box, r: nat)
    requires Inv(s) && r in s.timers
    ensures s.receives[r].active <==> s.pending == Some(r)
    ensures s.pending != Some(r) ==> Fire(s, r) == s.(timers := s.timers - {r})
    ensures s.pending == Some(r) ==>
              var s' := Fire(s, r);
              s'.receives[r].storage == Some(TimedOut) && s'.pending == None && s'.ready == [r] && s'.mailbox == s.mailbox
  {
    assert AwaiterInv(s, r);
  }

  // A waiting receive with a timeout always has its callback ahead of it.
  lemma TimeoutIsRegistered(states: seq<Box>, actions: seq<Action>, i: nat, r: nat)
    requires IsRun(states, actions) && Initial(states[0]) && i <= |actions|
    requires states[i].pending == Some(r) && r < |states[i].receives| && states[i].receives[r].timed
    ensures r in states[i].timers
  {
    RunKeepsInv(states, actions, i);
    assert AwaiterInv(states[i], r);
  }

  // ----- what is sent, and what becomes of it

  // What an action puts into the mailbox: a message, or the exit signal of a stop.
  function SentBy(a: Action): seq<Message> {
    match a
    case Arrive(m) => [m]
    case StopSelf(self, reason) => [ExitSignal(self, reason)]
    case _ => []
  }

  // Everything sent, in order.
  function Sent(actions: seq<Action>): seq<Message> {
    if actions == [] then [] else Sent(actions[..|actions| - 1]) + SentBy(actions[|actions| - 1])
  }

  // The visitors of every receive, in order, and whether it has a timeout.
  function Asked(actions: seq<Action>): seq<(seq<set<Kind>>, bool)> {
    if actions == [] then []
    else
      var last := actions[|actions| - 1];
      Asked(actions[..|actions| - 1]) + if last.Receives? then [(last.visitors, last.timed)] else []
  }

  ghost predicate IsAsked(receives: seq<Receive>, asked: seq<(seq<set<Kind>>, bool)>) {
    |receives| == |asked| && forall r :: 0 <= r < |receives| ==> (receives[r].visitors, receives[r].timed) == asked[r]
  }

  lemma StepSends(s: Box, a: Action)
    requires Shaped(s) && Enabled(s, a)
    ensures Step(s, a).arrivals == s.arrivals + SentBy(a)
    ensures Step(s, a).exitReason == if a.StopSelf? then Some(a.reason) else s.exitReason
  {
  }

  lemma StepAsks(s: Box, a: Action)
    requires Shaped(s) && Enabled(s, a)
    ensures |Step(s, a).receives| == |s.receives| + if a.Receives? then 1 else 0
    ensures forall r :: 0 <= r < |s.receives| ==>
              Step(s, a).receives[r].visitors == s.receives[r].visitors && Step(s, a).receives[r].timed == s.receives[r].timed
    ensures a.Receives? ==>
              Step(s, a).receives[|s.receives|].visitors == a.visitors && Step(s, a).receives[|s.receives|].timed == a.timed
  {
  }

  // In any run what has arrived is what was sent, in that order, a stop having sent the exit signal
  // of its reason; and the receives are those the actor asked for.
  lemma {:induction false} SentArrives(states: seq<Box>, actions: seq<Action>, i: nat)
    requires IsRun(states, actions) && Initial(states[0]) && i <= |actions|
    ensures states[i].arrivals == Sent(actions[..i])
    ensures IsAsked(states[i].receives, Asked(actions[..i]))
  {
    if i > 0 {
      var s, a := states[i - 1], actions[i - 1];
      SentArrives(states, actions, i - 1);
      assert Enabled(s, a) && states[i - 1 + 1] == Step(s, a);
      assert actions[..i][..i - 1] == actions[..i - 1];
      StepSends(s, a);
      StepAsks(s, a);
    }
  }

  // The exit reason is that of the latest stop.
  lemma {:induction false} LatestStopDecides(states: seq<Box>, actions: seq<Action>, i: nat, k: nat)
    requires IsRun(states, actions) && k <= i <= |actions|
    requires forall j :: k <= j < i ==> !actions[j].StopSelf?
    ensures states[i].exitReason == states[k].exitReason
    ensures k > 0 && actions[k - 1].StopSelf? ==> states[i].exitReason == Some(actions[k - 1].reason)
    decreases i
  {
    if k < i {
      LatestStopDecides(states, actions, i - 1, k);
      assert Enabled(states[i - 1], actions[i - 1]) && states[i - 1 + 1] == Step(states[i - 1], actions[i - 1]);
    } else if k > 0 {
      assert Enabled(states[k - 1], actions[k - 1]) && states[k - 1 + 1] == Step(states[k - 1], actions[k - 1]);
      StepSends(states[k - 1], actions[k - 1]);
    }
  }

  // What is sent, a stop's exit signal like any message, is handed at once to the waiting receive if
  // that accepts it: it goes to its first visitor that does, and the coroutine is scheduled.
  lemma SentIsHandedOver(s: Box, a: Action, m: Message, r: nat)
    requires Inv(s) && SentBy(a) == [m] && s.pending == Some(r) && Accepts(s.receives[r].visitors, m)
    ensures var s' := Step(s, a);
            && s'.mailbox == s.mailbox && s'.queued == s.queued && s'.fates == s.fates + [TakenBy(r)]
            && s'.pending == None && s'.ready == [r]
            && |s'.receives| == |s.receives| && GotIt(s'.receives[r], m) && !s'.receives[r].active
            && (forall q :: 0 <= q < |s.receives| && q != r ==> s'.receives[q] == s.receives[q])
            && s'.timers == s.timers && s'.control == s.control
  {
    assert AwaiterInv(s, r);
    var marked := s.(exitReason := Step(s, a).exitReason);
    EnqueueHandsOver(marked, m, r);
    assert Step(s, a) == Enqueue(marked, m);
  }

  lemma EnqueueHandsOver(s: Box, m: Message, r: nat)
    requires Shaped(s) && s.pending == Some(r) && s.ready == [] && Accepts(s.receives[r].visitors, m)
    requires forall k :: 0 <= k < |s.mailbox| ==> !Accepts(s.receives[r].visitors, s.mailbox[k])
    ensures var s' := Enqueue(s, m);
            && s'.mailbox == s.mailbox && s'.queued == s.queued && s'.fates == s.fates + [TakenBy(r)]
            && s'.pending == None && s'.ready == [r]
            && |s'.receives| == |s.receives| && GotIt(s'.receives[r], m) && !s'.receives[r].active
            && (forall q :: 0 <= q < |s.receives| && q != r ==> s'.receives[q] == s.receives[q])
            && s'.timers == s.timers && s'.control == s.control
  {
    var put, n := Put(s, m).(pending := None), |s.mailbox|;
    LastIsTaken(put, r);
    assert put.mailbox[..n] == s.mailbox && put.queued[..n] == s.queued;
    assert (s.fates + [Queued])[|s.arrivals| := TakenBy(r)] == s.fates + [TakenBy(r)];
  }

  // Matching takes the last message if only that is accepted.
  lemma LastIsTaken(s: Box, r: nat)
    requires Shaped(s) && r < |s.receives| && s.mailbox != []
    requires Accepts(s.receives[r].visitors, s.mailbox[|s.mailbox| - 1])
    requires forall k :: 0 <= k < |s.mailbox| - 1 ==> !Accepts(s.receives[r].visitors, s.mailbox[k])
    ensures var n := |s.mailbox| - 1;
            && TryMatch(s, r) == (Take(s, r, n), true)
            && Take(s, r, n).mailbox == s.mailbox[..n] && Take(s, r, n).queued == s.queued[..n]
            && GotIt(Take(s, r, n).receives[r], s.mailbox[n])
  {
    var n := |s.mailbox| - 1;
    assert FirstMatch(s.mailbox, s.receives[r].visitors) == Some(n);
  }

  // Otherwise it goes to the end of the mailbox.
  lemma SentIsQueued(s: Box, a: Action, m: Message)
    requires Inv(s) && SentBy(a) == [m]
    requires s.pending.Some? ==> !Accepts(s.receives[s.pending.value].visitors, m)
    ensures var s' := Step(s, a);
            s' == s.(mailbox := s.mailbox + [m], queued := s.queued + [|s.arrivals|], fates := s.fates + [Queued],
                     arrivals := s'.arrivals, exitReason := s'.exitReason)
  {
    if s.pending.Some? {
      var put := Put(s, m);
      assert forall k :: 0 <= k < |put.mailbox| ==> !Accepts(put.receives[s.pending.value].visitors, put.mailbox[k]);
    }
  }

  // A receive takes the first queued message that it accepts, and the actor goes on; with none it
  // suspends the actor, leaves the mailbox alone and, if it has a timeout, registers its callback.
  lemma AwaitTakesFirst(s: Box, visitors: seq<set<Kind>>, timed: bool, k: nat)
    requires Inv(s) && s.control == Running && k < |s.mailbox| && Accepts(visitors, s.mailbox[k])
    requires forall j :: 0 <= j < k ==> !Accepts(visitors, s.mailbox[j])
    ensures var s', r := Await(s, visitors, timed), |s.receives|;
            && s'.mailbox == s.mailbox[..k] + s.mailbox[k + 1..] && s'.fates == s.fates[s.queued[k] := TakenBy(r)]
            && |s'.receives| == r + 1 && s'.receives[..r] == s.receives && GotIt(s'.receives[r], s.mailbox[k])
            && s'.control == Running && s'.pending == None && s'.ready == [] && s'.timers == s.timers
  {
    assert FirstMatch(s.mailbox, visitors) == Some(k);
  }

  lemma AwaitSuspends(s: Box, visitors: seq<set<Kind>>, timed: bool)
    requires Inv(s) && s.control == Running && forall j :: 0 <= j < |s.mailbox| ==> !Accepts(visitors, s.mailbox[j])
    ensures Await(s, visitors, timed)
         == s.(receives := s.receives + [Receive(visitors, timed, None, timed, 0)],
               pending := Some(|s.receives|), control := Suspended(|s.receives|),
               timers := s.timers + if timed then {|s.receives|} else {})
  {
    assert FirstMatch(s.mailbox, visitors) == None;
  }

  // ----- receiving everything

  // Whatever arrives, some visitor takes it, as with the dispatcher of a generic server.
  ghost predicate TakesAll(visitors: seq<set<Kind>>) {
    forall m :: Accepts(visitors, m)
  }

  ghost predicate OnlyTakesAll(actions: seq<Action>) {
    forall i :: 0 <= i < |actions| && actions[i].Receives? ==> TakesAll(actions[i].visitors)
  }

  // The messages receives have ended with, in the order of the receives.
  function Obtained(receives: seq<Receive>): seq<Message> {
    if receives == [] then []
    else
      var last := receives[|receives| - 1];
      Obtained(receives[..|receives| - 1])
      + if last.storage.Some? && last.storage.value.Got? then [last.storage.value.message] else []
  }

  lemma ObtainedSnoc(receives: seq<Receive>, r: Receive)
    ensures Obtained(receives + [r])
         == Obtained(receives) + if r.storage.Some? && r.storage.value.Got? then [r.storage.value.message] else []
  {
    assert (receives + [r])[..|receives|] == receives;
  }

  ghost predicate IsQueue(s: Box) {
    && (forall r :: 0 <= r < |s.receives| ==> TakesAll(s.receives[r].visitors))
    && Obtained(s.receives) + s.mailbox == s.arrivals
  }

  // Such a receive takes the message at the head.
  lemma TakesHead(mailbox: seq<Message>, visitors: seq<set<Kind>>)
    requires TakesAll(visitors)
    ensures FirstMatch(mailbox, visitors) == if mailbox == [] then None else Some(0)
  {
  }

  // Only the latest receive is touched: what it has ended with is added to what the others have.
  lemma LatestChanges(s: Box, s': Box, awaiter: Receive)
    requires s.receives != [] && s.receives[|s.receives| - 1].storage.None?
    requires s'.receives == s.receives[|s.receives| - 1 := awaiter]
    ensures Obtained(s'.receives)
         == Obtained(s.receives) + if awaiter.storage.Some? && awaiter.storage.value.Got? then [awaiter.storage.value.message] else []
  {
    var front := s.receives[..|s.receives| - 1];
    assert s.receives == front + [s.receives[|s.receives| - 1]] && s'.receives == front + [awaiter];
    ObtainedSnoc(front, s.receives[|s.receives| - 1]);
    ObtainedSnoc(front, awaiter);
  }

  // A waiting receive that takes everything has an empty mailbox, and is handed what arrives at once.
  lemma WaitingIsHandedArrival(s: Box, r: nat, m: Message)
    requires Inv(s) && s.pending == Some(r) && TakesAll(s.receives[r].visitors)
    ensures s.mailbox == [] && r == |s.receives| - 1 && s.receives[r].storage.None?
    ensures var s' := Enqueue(s, m);
            && s'.mailbox == [] && s'.arrivals == s.arrivals + [m] && s'.fates == s.fates + [TakenBy(r)]
            && s'.pending == None && s'.ready == [r]
            && |s'.receives| == |s.receives| && s'.receives == s.receives[r := s'.receives[r]] && GotIt(s'.receives[r], m)
            && s'.receives[r].visitors == s.receives[r].visitors
  {
    WaitingIsEmpty(s, r, m);
    EmptyIsHandedOver(s, r, m);
  }

  lemma WaitingIsEmpty(s: Box, r: nat, m: Message)
    requires Inv(s) && s.pending == Some(r) && TakesAll(s.receives[r].visitors)
    ensures s.mailbox == [] && Accepts(s.receives[r].visitors, m)
  {
    TakesHead(s.mailbox, s.receives[r].visitors);
  }

  lemma EmptyIsHandedOver(s: Box, r: nat, m: Message)
    requires Inv(s) && s.pending == Some(r) && s.mailbox == [] && Accepts(s.receives[r].visitors, m)
    ensures r == |s.receives| - 1 && s.receives[r].storage.None?
    ensures var s' := Enqueue(s, m);
            && s'.mailbox == [] && s'.arrivals == s.arrivals + [m] && s'.fates == s.fates + [TakenBy(r)]
            && s'.pending == None && s'.ready == [r]
            && |s'.receives| == |s.receives| && s'.receives == s.receives[r := s'.receives[r]] && GotIt(s'.receives[r], m)
            && s'.receives[r].visitors == s.receives[r].visitors
  {
    assert AwaiterInv(s, r);
    SentIsHandedOver(s, Arrive(m), m, r);
    StepSends(s, Arrive(m));
    StepAsks(s, Arrive(m));
  }

  lemma ArrivalKeepsQueue(s: Box, m: Message)
    requires Inv(s) && IsQueue(s)
    ensures IsQueue(Enqueue(s, m))
  {
    var s' := Enqueue(s, m);
    if s.pending.Some? {
      var r := s.pending.value;
      WaitingIsHandedArrival(s, r, m);
      LatestChanges(s, s', s'.receives[r]);
    } else {
      assert Obtained(s.receives) + (s.mailbox + [m]) == s.arrivals + [m];
    }
  }

  lemma AwaitTakesHead(s: Box, visitors: seq<set<Kind>>, timed: bool) returns (awaiter: Receive)
    requires Inv(s) && TakesAll(visitors)
    ensures awaiter.visitors == visitors
    ensures awaiter.storage
         == if s.mailbox == [] then None else Some(Got(FirstVisitor(visitors, s.mailbox[0]).value, s.mailbox[0]))
    ensures var s' := Await(s, visitors, timed);
            && s'.receives == s.receives + [awaiter] && s'.arrivals == s.arrivals
            && s'.mailbox == if s.mailbox == [] then [] else s.mailbox[1..]
  {
    TakesHead(s.mailbox, visitors);
    var r := |s.receives|;
    var added := s.(receives := s.receives + [Receive(visitors, timed, None, false, 0)]);
    assert added.receives[r] == Receive(visitors, timed, None, false, 0);
    if s.mailbox == [] {
      awaiter := Receive(visitors, timed, None, timed, 0);
    } else {
      awaiter := Take(added, r, 0).receives[r];
    }
  }

  lemma AwaitKeepsQueue(s: Box, visitors: seq<set<Kind>>, timed: bool)
    requires Inv(s) && IsQueue(s) && TakesAll(visitors)
    ensures IsQueue(Await(s, visitors, timed))
  {
    var awaiter := AwaitTakesHead(s, visitors, timed);
    OneMoreReceive(s, Await(s, visitors, timed), awaiter);
  }

  lemma OneMoreReceive(s: Box, s': Box, awaiter: Receive)
    requires IsQueue(s) && TakesAll(awaiter.visitors)
    requires s'.receives == s.receives + [awaiter] && s'.arrivals == s.arrivals
    requires if s.mailbox == [] then awaiter.storage == None && s'.mailbox == []
             else awaiter.storage.Some? && awaiter.storage.value.Got? && awaiter.storage.value.message == s.mailbox[0] &&
                  s'.mailbox == s.mailbox[1..]
    ensures IsQueue(s')
  {
    ObtainedSnoc(s.receives, awaiter);
    if s.mailbox != [] {
      assert Obtained(s.receives) + [s.mailbox[0]] + s.mailbox[1..] == Obtained(s.receives) + s.mailbox;
    }
  }

  lemma FireKeepsQueue(s: Box, r: nat)
    requires Inv(s) && IsQueue(s) && r in s.timers
    ensures IsQueue(Fire(s, r))
  {
    assert AwaiterInv(s, r);
    if s.receives[r].active {
      LatestChanges(s, Fire(s, r), Fire(s, r).receives[r]);
    }
  }

  lemma StepKeepsQueue(s: Box, a: Action)
    requires Inv(s) && Enabled(s, a) && IsQueue(s) && (a.Receives? ==> TakesAll(a.visitors))
    ensures IsQueue(Step(s, a))
  {
    match a
    case Arrive(m) => ArrivalKeepsQueue(s, m);
    case StopSelf(self, reason) =>
      var marked := s.(exitReason := Some(reason));
      assert forall r :: 0 <= r < |s.receives| ==> AwaiterInv(marked, r) == AwaiterInv(s, r);
      SameOutcomesKeepTook(s, marked);
      ArrivalKeepsQueue(marked, ExitSignal(self, reason));
    case Receives(visitors, timed) => AwaitKeepsQueue(s, visitors, timed);
    case Fires(r) => FireKeepsQueue(s, r);
    case Resumes =>
  }

  // An actor that receives only with visitors for every kind has a queue for a mailbox: what its
  // receives have ended with, in their order, followed by what is in the mailbox, is everything that
  // has arrived, in order. Timeouts may end some receives in between.
  lemma {:induction false} TakingAllIsAQueue(states: seq<Box>, actions: seq<Action>, i: nat)
    requires IsRun(states, actions) && Initial(states[0]) && OnlyTakesAll(actions) && i <= |actions|
    ensures IsQueue(states[i])
    ensures Obtained(states[i].receives) + states[i].mailbox == states[i].arrivals
  {
    if i > 0 {
      TakingAllIsAQueue(states, actions, i - 1);
      RunKeepsInv(states, actions, i - 1);
      assert states[i - 1 + 1] == Step(states[i - 1], actions[i - 1]);
      StepKeepsQueue(states[i - 1], actions[i - 1]);
    }
  }
}
