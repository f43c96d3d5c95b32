/**
  How the multi-threaded scheduler moves handles between its queues.
*/
module MtSchedulers {
  import opened Collections
  import opened CircularBuffers
  import opened ChaseLevDeque

  // What a worker is doing. `attempt` counts the victims `try_steal` has moved past.
  datatype Worker =
    | AtTop
    | Popping
    | Injecting
    | Stealing(attempt: nat)
    | Resuming(handle: Handle)
    | Scheduling(resumed: Handle, handle: Handle)

  // An injection queue, one work-stealing deque per worker, and the handles workers have taken. Every
  // access to a deque is one step of the deque's own state machine, so all workers interleave at that
  // grain.
  datatype Pool = Pool(
    deques: seq<State>,
    injected: seq<Handle>,
    workers: seq<Worker>,
    scheduled: multiset<Handle>,   // every handle passed to `schedule` so far
    resumed: seq<seq<Handle>>)     // per worker, the handles it took to resume, in order

  datatype Action =
    | ScheduleOutside(handle: Handle)                 // `schedule` on a thread that is no worker
    | ScheduleInside(worker: nat, handle: Handle)     // `schedule` from the coroutine a worker resumes
    | ResumeEnds(worker: nat)
    | WorkerMoves(worker: nat)

  function Victim(self: nat, attempt: nat, count: nat): nat
    requires count > 0
  {
    (self + attempt) % count
  }

  predicate Enabled(p: Pool, a: Action) {
    match a
    case ScheduleOutside(_) => true
    case ScheduleInside(w, _) => w < |p.workers| && p.workers[w].Resuming?
    case ResumeEnds(w) => w < |p.workers| && p.workers[w].Resuming?
    case WorkerMoves(w) => w < |p.workers| && !p.workers[w].Resuming?
  }

  ghost predicate Defined(p: Pool, a: Action) {
    && |p.deques| == |p.workers| == |p.resumed|
    && match a
       case ScheduleOutside(_) => true
       case ScheduleInside(w, h) => w < |p.workers| && p.workers[w].Resuming? &&
            ChaseLevDeque.Defined(p.deques[w], StartPush(h))
       case ResumeEnds(w) => w < |p.workers|
       case WorkerMoves(w) =>
         && w < |p.workers|
         && match p.workers[w]
            case Popping => ChaseLevDeque.Defined(p.deques[w], OwnerMove)
            case Scheduling(_, _) => ChaseLevDeque.Defined(p.deques[w], OwnerMove)
            case Stealing(attempt) =>
              ChaseLevDeque.Defined(p.deques[Victim(w, attempt, |p.workers|)], StealerMove(w))
            case _ => true
  }

  // The handle a step of a deque hands out, if it does.
  function HandedOut(answer: seq<Return>): Option<Handle> {
    if answer == [] then None
    else match answer[0]
      case PopReturns(Some(h)) => Some(h)
      case StealReturns(_, Some(h)) => Some(h)
      case _ => None
  }

  // Worker `w` goes on as `worker`, resuming the handle it has been given, if any.
  function Goes(p: Pool, w: nat, worker: Worker, handle: Option<Handle>): Pool
    requires w < |p.workers| == |p.resumed|
  {
    p.(workers := p.workers[w := worker],
       resumed := if handle.Some? then p.resumed[w := p.resumed[w] + [handle.value]] else p.resumed)
  }

  // What a worker does after a step on its own deque.
  function OwnWorkerAfter(worker: Worker, answer: seq<Return>): Worker
    requires worker.Popping? || worker.Scheduling?
  {
    if answer == [] then worker
    else if worker.Scheduling? then Resuming(worker.resumed)
    else if HandedOut(answer).Some? then Resuming(HandedOut(answer).value)
    else Injecting
  }

  function OwnDequeMoves(p: Pool, w: nat): Pool
    requires Defined(p, WorkerMoves(w)) && (p.workers[w].Popping? || p.workers[w].Scheduling?)
  {
    var answer := Returned(p.deques[w], OwnerMove);
    Goes(p.(deques := p.deques[w := OwnerNext(p.deques[w])]), w, OwnWorkerAfter(p.workers[w], answer), HandedOut(answer))
  }

  // What a worker does after a step on a victim's deque.
  function ThiefAfter(worker: Worker, answer: seq<Return>): Worker
    requires worker.Stealing?
  {
    if answer == [] then worker
    else if HandedOut(answer).Some? then Resuming(HandedOut(answer).value)
    else Stealing(worker.attempt + 1)
  }

  function StealFrom(p: Pool, w: nat, v: nat): Pool
    requires w < |p.workers| == |p.resumed| && p.workers[w].Stealing?
    requires v < |p.deques| && ChaseLevDeque.Defined(p.deques[v], StealerMove(w))
  {
    var answer := Returned(p.deques[v], StealerMove(w));
    Goes(p.(deques := p.deques[v := StealerNext(p.deques[v], w)]), w, ThiefAfter(p.workers[w], answer), HandedOut(answer))
  }

  function VictimDequeMoves(p: Pool, w: nat): Pool
    requires Defined(p, WorkerMoves(w)) && p.workers[w].Stealing?
  {
    var attempt := p.workers[w].attempt;
    var v := Victim(w, attempt, |p.workers|);
    if attempt > |p.workers| then Goes(p, w, AtTop, None)
    else if v == w then Goes(p, w, Stealing(attempt + 1), None)
    else StealFrom(p, w, v)
  }

  function Next(p: Pool, a: Action): Pool
    requires Defined(p, a)
  {
    match a
    case ScheduleOutside(h) =>
      if h == NULL_HANDLE then p
      else p.(injected := p.injected + [h], scheduled := p.scheduled + multiset{h})
    case ScheduleInside(w, h) =>
      if h == NULL_HANDLE then p
      else
        Goes(p.(deques := p.deques[w := ChaseLevDeque.Next(p.deques[w], StartPush(h))], scheduled := p.scheduled + multiset{h}),
             w, Scheduling(p.workers[w].handle, h), None)
    case ResumeEnds(w) => Goes(p, w, AtTop, None)
    case WorkerMoves(w) =>
      match p.workers[w]
      case AtTop =>
        p.(deques := p.deques[w := ChaseLevDeque.Next(p.deques[w], StartPop)], workers := p.workers[w := Popping])
      case Popping => OwnDequeMoves(p, w)
      case Scheduling(_, _) => OwnDequeMoves(p, w)
      case Injecting =>
        if p.injected == [] then Goes(p, w, Stealing(1), None)
        else Goes(p.(injected := p.injected[1..]), w, Resuming(p.injected[0]), Some(p.injected[0]))
      case Stealing(_) => VictimDequeMoves(p, w)
      case Resuming(_) => p
  }

  // ----- only worker i pushes and pops on deque i

  // Where the worker stands tells what it is doing on its own deque.
  ghost predicate OwnerRole(worker: Worker, d: State) {
    match worker
    case Popping => Pops(d.owner)
    case Scheduling(_, h) => Pushes(d.owner, h)
    case _ => d.owner.Resting?
  }

  ghost predicate Pops(owner: Owner) {
    owner.PopLoadBuffer? || owner.PopReserve? || owner.PopLoadTop? || owner.PopLoadSlot? || owner.PopRace? || owner.PopRestore?
  }

  ghost predicate Pushes(owner: Owner, handle: Handle) {
    match owner
    case PushLoadTop(v, _) => v == handle
    case PushLoadBuffer(v, _, _) => v == handle
    case GrowLoad(v, _, _, _, _, _) => v == handle
    case GrowStore(v, _, _, _, _, _, _) => v == handle
    case GrowPublish(v, _, _, _, _) => v == handle
    case PushStore(v, _, _) => v == handle
    case PushPublish(v, _) => v == handle
    case _ => false
  }

  ghost predicate Initial(p: Pool) {
    && |p.deques| == |p.workers| == |p.resumed|
    && forall v :: 0 <= v < |p.deques| ==>
         ChaseLevDeque.Initial(p.deques[v]) && p.workers[v] == AtTop && p.resumed[v] == []
  }

  // ----- where a handle can be

  // How often a handle occurs.
  function Count(q: seq<Handle>, h: Handle): nat { multiset(q)[h] }

  function Is(held: Option<Handle>, h: Handle): nat {
    if held == Some(h) then 1 else 0
  }

  // The handle of a pop that has taken effect and has not returned.
  function PopInHand(d: State): Option<Handle>
    requires WellShaped(d) && OwnerInv(d)
  {
    var pending := Pending(d);
    if pending != [] && pending[0].Popped? then Some(pending[0].value) else None
  }

  // How often `h` is in the deque or in the hands of its owner, who has taken it out.
  ghost predicate HasCount(d: State, h: Handle, count: nat) {
    ChaseLevDeque.Inv(d) && count == Count(Contents(d), h) + Is(PopInHand(d), h)
  }

  // `HasCount`, kept folded.
  ghost predicate Keeps(d: State, h: Handle, count: nat) {
    forall n: nat {:trigger Unfold(n)} :: Unfold(n) ==> HasCount(d, h, count)
  }

  // ----- one step of one deque

  // What a step takes out of the deque, and what it puts into it.
  function TakenOut(effect: seq<Event>): Option<Handle> {
    if effect != [] && (effect[0].Popped? || effect[0].Stolen?) then Some(effect[0].value) else None
  }

  function PutIn(effect: seq<Event>): Option<Handle> {
    if effect != [] && effect[0].Pushed? then Some(effect[0].value) else None
  }

  lemma ApplyCount(q: seq<Handle>, e: Event, h: Handle)
    requires Apply(q, e).Some?
    ensures Count(q, h) + Is(PutIn([e]), h) == Count(Apply(q, e).value, h) + Is(TakenOut([e]), h)
  {
    var q' := Apply(q, e).value;
    match e
    case Pushed(v) =>
    case Popped(v) => assert q == q' + [v];
    case Stolen(_, v) => assert q == [v] + q';
    case FoundEmpty =>
  }

  lemma EffectCount(d: State, a: ChaseLevDeque.Action, h: Handle)
    requires Refines(d, a) && |Effect(d, a)| <= 1
    ensures Count(Contents(d), h) + Is(PutIn(Effect(d, a)), h)
         == Count(Contents(ChaseLevDeque.Next(d, a)), h) + Is(TakenOut(Effect(d, a)), h)
  {
    var effect := Effect(d, a);
    if effect != [] {
      ReplayOne(Contents(d), effect[0]);
      ApplyCount(Contents(d), effect[0], h);
      assert effect == [effect[0]];
    }
  }

  // The handle the owner's next step puts into the deque.
  function PushedBy(d: State): Option<Handle> {
    if d.owner.PushPublish? then Some(d.owner.value) else None
  }

  // A handle the owner takes out stays in its hand until the pop hands it out.
  lemma OwnerHand(d: State)
    requires WellShaped(d) && OwnerInv(d) && ChaseLevDeque.Defined(d, OwnerMove) && !d.owner.Resting?
    requires WellShaped(OwnerNext(d)) && OwnerInv(OwnerNext(d))
    ensures var before, after := PopInHand(d), PopInHand(OwnerNext(d));
            var taken, out := TakenOut(Effect(d, OwnerMove)), HandedOut(Returned(d, OwnerMove));
            || (taken.None? && out.None? && before == after)
            || (taken.Some? && out.None? && before.None? && after == taken)
            || (taken.None? && out.Some? && before == out && after.None?)
  {
    match d.owner
    case PopRestore(_, None) =>
    case PopRestore(_, Some(_)) =>
    case PopLoadTop(_, _) =>
    case PopLoadSlot(_, _, _) =>
    case PopRace(_, _, _) =>
    case _ =>
  }

  lemma OwnerPuts(d: State)
    requires ChaseLevDeque.Defined(d, OwnerMove)
    ensures |Effect(d, OwnerMove)| <= 1
    ensures PutIn(Effect(d, OwnerMove)) == PushedBy(d)
  {
  }

  lemma InitiallyKeepsNothing(d: State, h: Handle)
    requires ChaseLevDeque.Initial(d)
    ensures Keeps(d, h, 0)
  {
  }

  lemma StartKeeps(d: State, a: ChaseLevDeque.Action, h: Handle, count: nat)
    requires Keeps(d, h, count) && d.owner.Resting? && (a.StartPush? || a.StartPop?)
    ensures ChaseLevDeque.Defined(d, a) && Keeps(ChaseLevDeque.Next(d, a), h, count)
  {
    assert Unfold(0);
    StartKeepsInv(d, a);
    assert HasCount(ChaseLevDeque.Next(d, a), h, count);
  }

  lemma OwnerKeeps(d: State, h: Handle, count: nat) returns (count': nat)
    requires Keeps(d, h, count) && !d.owner.Resting?
    ensures ChaseLevDeque.Defined(d, OwnerMove) && Keeps(OwnerNext(d), h, count')
    ensures count + Is(PushedBy(d), h) == count' + Is(HandedOut(Returned(d, OwnerMove)), h)
  {
    assert Unfold(0);
    StepRefines(d, OwnerMove);
    OwnerHand(d);
    OwnerPuts(d);
    EffectCount(d, OwnerMove, h);
    count' := Count(Contents(OwnerNext(d)), h) + Is(PopInHand(OwnerNext(d)), h);
    assert HasCount(OwnerNext(d), h, count');
  }

  lemma StealerKeeps(d: State, w: nat, h: Handle, count: nat) returns (count': nat)
    requires Keeps(d, h, count)
    ensures ChaseLevDeque.Defined(d, StealerMove(w)) && Keeps(StealerNext(d, w), h, count')
    ensures StealerNext(d, w).owner == d.owner
    ensures count == count' + Is(HandedOut(Returned(d, StealerMove(w))), h)
  {
    assert Unfold(0);
    StepRefines(d, StealerMove(w));
    StealerHand(d, w);
    EffectCount(d, StealerMove(w), h);
    StealerStepReturns(d, w);
    var d' := StealerNext(d, w);
    count' := Count(Contents(d'), h) + Is(PopInHand(d'), h);
    assert HasCount(d', h, count');
  }

  // What a thief takes out is what it hands out.
  lemma StealerHand(d: State, w: nat)
    requires ChaseLevDeque.Defined(d, StealerMove(w))
    ensures StealerNext(d, w).owner == d.owner
    ensures |Effect(d, StealerMove(w))| <= 1 && PutIn(Effect(d, StealerMove(w))) == None
    ensures TakenOut(Effect(d, StealerMove(w))) == HandedOut(Returned(d, StealerMove(w)))
  {
  }

  // ----- every handle is in exactly one place

  // The handle of a push that has not yet taken effect.
  function PushInHand(worker: Worker): Option<Handle> {
    if worker.Scheduling? then Some(worker.handle) else None
  }

  // How often `h` is with each worker, given how often it is in each worker's deque.
  ghost function Places(p: Pool, h: Handle, counts: seq<nat>): seq<nat>
    requires |counts| == |p.workers| == |p.resumed|
  {
    seq(|counts|, w requires 0 <= w < |counts| => counts[w] + Is(PushInHand(p.workers[w]), h) + Count(p.resumed[w], h))
  }

  function Sum(counts: seq<nat>): nat {
    if counts == [] then 0 else Sum(counts[..|counts| - 1]) + counts[|counts| - 1]
  }

  ghost predicate Sound(p: Pool, h: Handle, counts: seq<nat>) {
    && |p.deques| == |p.workers| == |p.resumed| == |counts|
    && forall v :: 0 <= v < |p.deques| ==> Keeps(p.deques[v], h, counts[v])
  }

  ghost predicate Roles(p: Pool)
    requires |p.deques| == |p.workers|
  {
    forall v :: 0 <= v < |p.deques| ==> OwnerRole(p.workers[v], p.deques[v])
  }

  // The account that every step keeps: as often as `h` was scheduled, it is in the injection
  // queue, or with one worker: in its deque, in its hands while it pushes or pops, or resumed.
  ghost predicate Accounted(p: Pool, h: Handle, counts: seq<nat>) {
    Sound(p, h, counts) && Roles(p) && p.scheduled[h] == Count(p.injected, h) + Sum(Places(p, h, counts))
  }

  lemma {:induction false} SumUpdate(counts: seq<nat>, i: nat, count: nat)
    requires i < |counts|
    ensures Sum(counts[i := count]) + counts[i] == Sum(counts) + count
    decreases |counts|
  {
    var n := |counts| - 1;
    var updated := counts[i := count];
    if i < n {
      SumUpdate(counts[..n], i, count);
      assert updated[..n] == counts[..n][i := count];
    } else {
      assert updated[..n] == counts[..n];
    }
  }

  // Deque `v` has become `d`.
  lemma DequeChanges(p: Pool, h: Handle, counts: seq<nat>, v: nat, d: State, count: nat)
    requires Sound(p, h, counts) && v < |p.deques| && Keeps(d, h, count)
    ensures Sound(p.(deques := p.deques[v := d]), h, counts[v := count])
    ensures Sum(Places(p.(deques := p.deques[v := d]), h, counts[v := count])) + counts[v]
         == Sum(Places(p, h, counts)) + count
  {
    var places := Places(p, h, counts);
    SumUpdate(places, v, places[v] - counts[v] + count);
    assert Places(p.(deques := p.deques[v := d]), h, counts[v := count]) == places[v := places[v] - counts[v] + count];
  }

  // Worker `w` has gone on.
  lemma WorkerGoes(p: Pool, h: Handle, counts: seq<nat>, w: nat, worker: Worker, handle: Option<Handle>)
    requires Sound(p, h, counts) && w < |p.workers|
    ensures Sound(Goes(p, w, worker, handle), h, counts)
    ensures Sum(Places(Goes(p, w, worker, handle), h, counts)) + Is(PushInHand(p.workers[w]), h)
         == Sum(Places(p, h, counts)) + Is(PushInHand(worker), h) + Is(handle, h)
  {
    var p' := Goes(p, w, worker, handle);
    var places, place := Places(p, h, counts), Places(p', h, counts)[w];
    SumUpdate(places, w, place);
    assert Places(p', h, counts) == places[w := place];
  }

  // ----- one step of the pool

  lemma ScheduleOutsideAccounted(p: Pool, h: Handle, counts: seq<nat>, handle: Handle)
    requires Accounted(p, h, counts)
    ensures Accounted(Next(p, ScheduleOutside(handle)), h, counts)
  {
  }

  lemma ScheduleInsideAccounted(p: Pool, h: Handle, counts: seq<nat>, w: nat, handle: Handle)
    requires Accounted(p, h, counts) && Enabled(p, ScheduleInside(w, handle))
    ensures Defined(p, ScheduleInside(w, handle)) && Accounted(Next(p, ScheduleInside(w, handle)), h, counts)
  {
    StartKeeps(p.deques[w], StartPush(handle), h, counts[w]);
    if handle != NULL_HANDLE {
      var d := ChaseLevDeque.Next(p.deques[w], StartPush(handle));
      var counted := p.(scheduled := p.scheduled + multiset{handle});
      assert Places(counted, h, counts) == Places(p, h, counts);
      PushBegins(counted, h, counts, w, d, Scheduling(p.workers[w].handle, handle));
    }
  }

  // Worker `w` has begun to push the handle it holds.
  lemma PushBegins(p: Pool, h: Handle, counts: seq<nat>, w: nat, d: State, worker: Worker)
    requires Sound(p, h, counts) && Roles(p) && w < |p.deques| && Keeps(d, h, counts[w])
    requires PushInHand(p.workers[w]) == None && worker.Scheduling? && OwnerRole(worker, d)
    ensures var p' := Goes(p.(deques := p.deques[w := d]), w, worker, None);
            && Sound(p', h, counts) && Roles(p')
            && Sum(Places(p', h, counts)) == Sum(Places(p, h, counts)) + Is(Some(worker.handle), h)
  {
    DequeChanges(p, h, counts, w, d, counts[w]);
    assert counts[w := counts[w]] == counts;
    WorkerGoes(p.(deques := p.deques[w := d]), h, counts, w, worker, None);
  }

  lemma QuietWorkerAccounted(p: Pool, h: Handle, counts: seq<nat>, w: nat, worker: Worker)
    requires Accounted(p, h, counts) && w < |p.workers|
    requires PushInHand(p.workers[w]) == PushInHand(worker) == None && OwnerRole(worker, p.deques[w])
    ensures Accounted(Goes(p, w, worker, None), h, counts)
  {
    WorkerGoes(p, h, counts, w, worker, None);
  }

  lemma AtTopAccounted(p: Pool, h: Handle, counts: seq<nat>, w: nat)
    requires Accounted(p, h, counts) && w < |p.workers| && p.workers[w].AtTop?
    ensures Defined(p, WorkerMoves(w)) && Accounted(Next(p, WorkerMoves(w)), h, counts)
  {
    StartKeeps(p.deques[w], StartPop, h, counts[w]);
    var d := ChaseLevDeque.Next(p.deques[w], StartPop);
    DequeChanges(p, h, counts, w, d, counts[w]);
    assert counts[w := counts[w]] == counts;
    WorkerGoes(p.(deques := p.deques[w := d]), h, counts, w, Popping, None);
  }

  lemma InjectingAccounted(p: Pool, h: Handle, counts: seq<nat>, w: nat)
    requires Accounted(p, h, counts) && w < |p.workers| && p.workers[w].Injecting?
    ensures Accounted(Next(p, WorkerMoves(w)), h, counts)
  {
    if p.injected == [] {
      QuietWorkerAccounted(p, h, counts, w, Stealing(1));
    } else {
      var handle, rest := p.injected[0], p.(injected := p.injected[1..]);
      assert Places(rest, h, counts) == Places(p, h, counts);
      WorkerGoes(rest, h, counts, w, Resuming(handle), Some(handle));
      assert p.injected == [handle] + p.injected[1..];
    }
  }

  lemma OwnDequeRole(worker: Worker, d: State)
    requires (worker.Popping? || worker.Scheduling?) && OwnerRole(worker, d) && ChaseLevDeque.Defined(d, OwnerMove)
    ensures OwnerRole(OwnWorkerAfter(worker, Returned(d, OwnerMove)), OwnerNext(d))
    ensures PushedBy(d) == if Returned(d, OwnerMove) == [] then None else PushInHand(worker)
  {
  }

  lemma OwnDequeAccounted(p: Pool, h: Handle, counts: seq<nat>, w: nat) returns (counts': seq<nat>)
    requires Accounted(p, h, counts) && w < |p.workers| && (p.workers[w].Popping? || p.workers[w].Scheduling?)
    ensures Defined(p, WorkerMoves(w)) && Accounted(Next(p, WorkerMoves(w)), h, counts')
  {
    var worker, d := p.workers[w], p.deques[w];
    var count' := OwnerKeeps(d, h, counts[w]);
    counts' := counts[w := count'];
    OwnDequeRole(worker, d);
    var answer := Returned(d, OwnerMove);
    var moved := p.(deques := p.deques[w := OwnerNext(d)]);
    DequeChanges(p, h, counts, w, OwnerNext(d), count');
    WorkerGoes(moved, h, counts', w, OwnWorkerAfter(worker, answer), HandedOut(answer));
  }

  lemma StealFromAccounted(p: Pool, h: Handle, counts: seq<nat>, w: nat, v: nat) returns (counts': seq<nat>)
    requires Accounted(p, h, counts) && w < |p.workers| && p.workers[w].Stealing? && v < |p.deques|
    ensures ChaseLevDeque.Defined(p.deques[v], StealerMove(w)) && Accounted(StealFrom(p, w, v), h, counts')
  {
    var d := p.deques[v];
    var count' := StealerKeeps(d, w, h, counts[v]);
    counts' := counts[v := count'];
    var answer := Returned(d, StealerMove(w));
    var moved := p.(deques := p.deques[v := StealerNext(d, w)]);
    DequeChanges(p, h, counts, v, StealerNext(d, w), count');
    WorkerGoes(moved, h, counts', w, ThiefAfter(p.workers[w], answer), HandedOut(answer));
  }

  lemma VictimDequeAccounted(p: Pool, h: Handle, counts: seq<nat>, w: nat) returns (counts': seq<nat>)
    requires Accounted(p, h, counts) && w < |p.workers| && p.workers[w].Stealing?
    ensures Defined(p, WorkerMoves(w)) && Accounted(Next(p, WorkerMoves(w)), h, counts')
  {
    var attempt := p.workers[w].attempt;
    var v := Victim(w, attempt, |p.workers|);
    var _ := StealerKeeps(p.deques[v], w, h, counts[v]);
    if attempt > |p.workers| || v == w {
      counts' := counts;
      QuietWorkerAccounted(p, h, counts, w, if attempt > |p.workers| then AtTop else Stealing(attempt + 1));
    } else {
      counts' := StealFromAccounted(p, h, counts, w, v);
      assert Next(p, WorkerMoves(w)) == StealFrom(p, w, v);
    }
  }

  lemma StepAccounted(p: Pool, h: Handle, counts: seq<nat>, a: Action) returns (counts': seq<nat>)
    requires Accounted(p, h, counts) && Enabled(p, a)
    ensures Defined(p, a) && Accounted(Next(p, a), h, counts')
  {
    counts' := counts;
    match a
    case ScheduleOutside(handle) => ScheduleOutsideAccounted(p, h, counts, handle);
    case ScheduleInside(w, handle) => ScheduleInsideAccounted(p, h, counts, w, handle);
    case ResumeEnds(w) => QuietWorkerAccounted(p, h, counts, w, AtTop);
    case WorkerMoves(w) =>
      match p.workers[w]
      case AtTop => AtTopAccounted(p, h, counts, w);
      case Popping => counts' := OwnDequeAccounted(p, h, counts, w);
      case Scheduling(_, _) => counts' := OwnDequeAccounted(p, h, counts, w);
      case Injecting => InjectingAccounted(p, h, counts, w);
      case Stealing(_) => counts' := VictimDequeAccounted(p, h, counts, w);
  }

  // ----- whole runs

  ghost predicate IsPath(pools: seq<Pool>, actions: seq<Action>) {
    && |pools| == |actions| + 1
    && forall i :: 0 <= i < |actions| ==>
         Enabled(pools[i], actions[i]) && Defined(pools[i], actions[i]) && pools[i + 1] == Next(pools[i], actions[i])
  }

  lemma InitiallyAccounted(p: Pool, h: Handle) returns (counts: seq<nat>)
    requires Initial(p) && p.scheduled == multiset(p.injected)
    ensures Accounted(p, h, counts)
  {
    counts := seq(|p.deques|, _ => 0);
    forall v | 0 <= v < |p.deques|
      ensures Keeps(p.deques[v], h, counts[v])
    {
      InitiallyKeepsNothing(p.deques[v], h);
    }
    SumOfZeros(Places(p, h, counts));
  }

  lemma {:induction false} SumOfZeros(counts: seq<nat>)
    requires forall i :: 0 <= i < |counts| ==> counts[i] == 0
    ensures Sum(counts) == 0
    decreases |counts|
  {
    if counts != [] {
      SumOfZeros(counts[..|counts| - 1]);
    }
  }

  lemma {:induction false} RunAccounted(pools: seq<Pool>, actions: seq<Action>, h: Handle) returns (counts: seq<nat>)
    requires IsPath(pools, actions) && Initial(pools[0])
    requires pools[0].scheduled == multiset(pools[0].injected)
    ensures Accounted(pools[|actions|], h, counts)
    decreases |actions|
  {
    var n := |actions|;
    if n == 0 {
      counts := InitiallyAccounted(pools[0], h);
    } else {
      var before := RunAccounted(pools[..n], actions[..n - 1], h);
      assert pools[..n][n - 1] == pools[n - 1];
      counts := StepAccounted(pools[n - 1], h, before, actions[n - 1]);
    }
  }

  // How often `h` is with worker `w`: in its deque, in its hands, or resumed by it.
  ghost function CountWith(p: Pool, h: Handle, w: nat): nat
    requires w < |p.deques| == |p.workers| == |p.resumed| && ChaseLevDeque.Inv(p.deques[w])
  {
    Count(Contents(p.deques[w]), h) + Is(PopInHand(p.deques[w]), h) + Is(PushInHand(p.workers[w]), h) + Count(p.resumed[w], h)
  }

  ghost predicate DequesSound(p: Pool) {
    && |p.deques| == |p.workers| == |p.resumed|
    && forall v :: 0 <= v < |p.deques| ==> ChaseLevDeque.Inv(p.deques[v])
  }

  ghost function CountsWith(p: Pool, h: Handle): seq<nat>
    requires DequesSound(p)
  {
    seq(|p.workers|, w requires 0 <= w < |p.workers| => CountWith(p, h, w))
  }

  // Whatever the interleaving of any number of workers and outside threads: every handle passed to
  // `schedule` is, as often as it was passed, in the injection queue, or in one worker's deque, or
  // in the hands of one worker, or resumed by one worker. And only worker i ever pushes to or pops
  // from deque i.
  lemma EveryHandleInOnePlace(pools: seq<Pool>, actions: seq<Action>, h: Handle)
    requires IsPath(pools, actions) && Initial(pools[0])
    requires pools[0].scheduled == multiset(pools[0].injected)
    ensures var p := pools[|actions|];
            && DequesSound(p) && Roles(p)
            && p.scheduled[h] == Count(p.injected, h) + Sum(CountsWith(p, h))
  {
    var counts := RunAccounted(pools, actions, h);
    PlacesAreCounts(pools[|actions|], h, counts);
  }

  lemma PlacesAreCounts(p: Pool, h: Handle, counts: seq<nat>)
    requires Sound(p, h, counts)
    ensures DequesSound(p) && CountsWith(p, h) == Places(p, h, counts)
  {
    forall v | 0 <= v < |p.deques|
      ensures HasCount(p.deques[v], h, counts[v])
    {
      assert Unfold(0);
    }
  }

  // So a handle scheduled once, as every suspended coroutine is, is resumed at most once.
  lemma ScheduledOnceResumedAtMostOnce(pools: seq<Pool>, actions: seq<Action>, h: Handle, w: nat, w': nat)
    requires IsPath(pools, actions) && Initial(pools[0])
    requires pools[0].scheduled == multiset(pools[0].injected)
    requires pools[|actions|].scheduled[h] <= 1
    ensures w < |pools[|actions|].resumed| ==> Count(pools[|actions|].resumed[w], h) <= 1
    ensures w < w' < |pools[|actions|].resumed| ==>
              Count(pools[|actions|].resumed[w], h) + Count(pools[|actions|].resumed[w'], h) <= 1
  {
    EveryHandleInOnePlace(pools, actions, h);
    var p := pools[|actions|];
    if w < |p.resumed| {
      SumBounds(CountsWith(p, h), w, w);
      if w < w' < |p.resumed| {
        SumBounds(CountsWith(p, h), w, w');
      }
    }
  }

  lemma {:induction false} SumBounds(counts: seq<nat>, i: nat, j: nat)
    requires i <= j < |counts|
    ensures counts[i] <= Sum(counts)
    ensures i < j ==> counts[i] + counts[j] <= Sum(counts)
    decreases |counts|
  {
    var n := |counts| - 1;
    if j < n {
      SumBounds(counts[..n], i, j);
    } else if i < n {
      SumBounds(counts[..n], i, i);
    }
  }
}
