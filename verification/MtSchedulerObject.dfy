/**
  The multi-threaded scheduler as an object: `schedule` and the worker loop, one access to a shared
  queue at a time, with all other threads running between any two accesses. Every access is one step
  of the state machine of `MtSchedulers`.
*/
module MtSchedulerObjects {
  import opened Collections
  import opened CircularBuffers
  import opened ChaseLevDeque
  import opened MtSchedulers

  // Where a worker found its next handle, or looked last.
  datatype Source = OwnDeque | InjectionQueue | OthersDeques

  // What the steps of other threads leave as it is for worker `w`.
  ghost predicate SameFor(w: nat, p: Pool, p': Pool) {
    && |p'.deques| == |p.deques| && |p'.workers| == |p.workers| && |p'.resumed| == |p.resumed|
    && |p.deques| == |p.workers| == |p.resumed|
    && (w < |p.workers| ==>
          && p'.workers[w] == p.workers[w] && p'.resumed[w] == p.resumed[w]
          && p'.deques[w].owner == p.deques[w].owner)
    && (forall v :: 0 <= v < |p.deques| ==> p'.deques[v].StealerAt(w) == p.deques[v].StealerAt(w))
    && p.scheduled <= p'.scheduled
  }

  predicate By(a: MtSchedulers.Action, w: nat) {
    match a
    case ScheduleOutside(_) => false
    case ScheduleInside(v, _) => v == w
    case ResumeEnds(v) => v == w
    case WorkerMoves(v) => v == w
  }

  ghost predicate HasPath(p: Pool) {
    exists pools: seq<Pool>, actions: seq<MtSchedulers.Action> ::
      && MtSchedulers.IsPath(pools, actions) && MtSchedulers.Initial(pools[0])
      && pools[0].scheduled == multiset(pools[0].injected) && p == pools[|actions|]
  }

  // The pool is reached by some run; kept folded.
  ghost predicate PoolReached(p: Pool) {
    forall n: nat {:trigger Unfold(n)} :: Unfold(n) ==> HasPath(p)
  }

  lemma PoolReachedInitially(p: Pool)
    requires MtSchedulers.Initial(p) && p.scheduled == multiset(p.injected)
    ensures PoolReached(p)
  {
    assert MtSchedulers.IsPath([p], []);
    assert HasPath(p);
  }

  lemma PoolReachedStep(p: Pool, a: MtSchedulers.Action)
    requires PoolReached(p) && MtSchedulers.Enabled(p, a)
    ensures MtSchedulers.Defined(p, a) && PoolReached(MtSchedulers.Next(p, a))
  {
    assert Unfold(0);
    PathStep(p, a);
  }

  lemma PathStep(p: Pool, a: MtSchedulers.Action)
    requires HasPath(p) && MtSchedulers.Enabled(p, a)
    ensures MtSchedulers.Defined(p, a) && HasPath(MtSchedulers.Next(p, a))
  {
    var pools: seq<Pool>, actions: seq<MtSchedulers.Action> :|
      && MtSchedulers.IsPath(pools, actions) && MtSchedulers.Initial(pools[0])
      && pools[0].scheduled == multiset(pools[0].injected) && p == pools[|actions|];
    var counts := RunAccounted(pools, actions, 0);
    var _ := StepAccounted(p, 0, counts, a);
    PathSnoc(pools, actions, a);
  }

  lemma PathSnoc(pools: seq<Pool>, actions: seq<MtSchedulers.Action>, a: MtSchedulers.Action)
    requires MtSchedulers.IsPath(pools, actions)
    requires MtSchedulers.Enabled(pools[|actions|], a) && MtSchedulers.Defined(pools[|actions|], a)
    ensures MtSchedulers.IsPath(pools + [MtSchedulers.Next(pools[|actions|], a)], actions + [a])
  {
    var pools', actions' := pools + [MtSchedulers.Next(pools[|actions|], a)], actions + [a];
    forall i | 0 <= i < |actions'|
      ensures MtSchedulers.Enabled(pools'[i], actions'[i]) && MtSchedulers.Defined(pools'[i], actions'[i])
      ensures pools'[i + 1] == MtSchedulers.Next(pools'[i], actions'[i])
    {
      if i < |actions| {
        assert pools'[i] == pools[i] && pools'[i + 1] == pools[i + 1] && actions'[i] == actions[i];
      }
    }
  }

  // Where every worker stands tells what it is doing on its own deque, and nobody else is.
  lemma ReachedRoles(p: Pool, w: nat)
    requires PoolReached(p)
    ensures |p.deques| == |p.workers| == |p.resumed|
    ensures w < |p.workers| ==> OwnerRole(p.workers[w], p.deques[w])
  {
    assert Unfold(0);
    var pools: seq<Pool>, actions: seq<MtSchedulers.Action> :|
      && MtSchedulers.IsPath(pools, actions) && MtSchedulers.Initial(pools[0])
      && pools[0].scheduled == multiset(pools[0].injected) && p == pools[|actions|];
    EveryHandleInOnePlace(pools, actions, 0);
  }

  // Every handle passed to `schedule` is in one place.
  lemma ReachedAccounted(p: Pool, h: Handle)
    requires PoolReached(p)
    ensures DequesSound(p) && p.scheduled[h] == Count(p.injected, h) + Sum(CountsWith(p, h))
  {
    assert Unfold(0);
    var pools: seq<Pool>, actions: seq<MtSchedulers.Action> :|
      && MtSchedulers.IsPath(pools, actions) && MtSchedulers.Initial(pools[0])
      && pools[0].scheduled == multiset(pools[0].injected) && p == pools[|actions|];
    EveryHandleInOnePlace(pools, actions, h);
  }

  // What workers took, they took no more often than it was scheduled.
  lemma TakenWasScheduled(p: Pool, w: nat, h: Handle)
    requires PoolReached(p) && w < |p.resumed| && h in p.resumed[w]
    ensures 0 < Count(p.resumed[w], h) <= p.scheduled[h]
  {
    ReachedAccounted(p, h);
    SumBounds(CountsWith(p, h), w, w);
  }

  lemma FoundWasScheduled(p: Pool, p': Pool, w: nat, handle: Option<Handle>)
    requires PoolReached(p') && Takes(w, p, p', handle, AtTop)
    ensures handle.Some? ==> handle.value in p'.scheduled
  {
    if handle.Some? {
      assert p'.resumed[w][|p'.resumed[w]| - 1] == handle.value;
      TakenWasScheduled(p', w, handle.value);
    }
  }

  // A step of another thread on a deque is a step of a thief there, or of its owner.
  lemma OthersLeave(p: Pool, a: MtSchedulers.Action, w: nat)
    requires MtSchedulers.Defined(p, a) && MtSchedulers.Enabled(p, a) && !By(a, w)
    ensures SameFor(w, p, MtSchedulers.Next(p, a))
  {
    match a
    case WorkerMoves(v) =>
      if p.workers[v].Stealing? { OtherSteals(p, v, w); } else { OtherMoves(p, v, w); }
    case _ =>
  }

  lemma OtherSteals(p: Pool, v: nat, w: nat)
    requires MtSchedulers.Defined(p, WorkerMoves(v)) && v != w && p.workers[v].Stealing?
    ensures SameFor(w, p, MtSchedulers.Next(p, WorkerMoves(v)))
  {
  }

  lemma OtherMoves(p: Pool, v: nat, w: nat)
    requires MtSchedulers.Defined(p, WorkerMoves(v)) && v != w && !p.workers[v].Stealing?
    ensures SameFor(w, p, MtSchedulers.Next(p, WorkerMoves(v)))
  {
  }

  lemma SameForTransitive(w: nat, p: Pool, q: Pool, r: Pool)
    requires SameFor(w, p, q) && SameFor(w, q, r)
    ensures SameFor(w, p, r)
  {
  }

  // ----- how far a pop, a push or a steal has to go

  function PopRank(owner: Owner): nat {
    match owner
    case PopLoadBuffer(_) => 6
    case PopReserve(_, _) => 5
    case PopLoadTop(_, _) => 4
    case PopLoadSlot(_, _, _) => 3
    case PopRace(_, _, _) => 2
    case PopRestore(_, _) => 1
    case _ => 0
  }

  function PushPhase(owner: Owner): nat {
    match owner
    case PushLoadTop(_, _) => 5
    case PushLoadBuffer(_, _, _) => 4
    case GrowLoad(_, _, _, _, _, _) => 3
    case GrowStore(_, _, _, _, _, _, _) => 3
    case GrowPublish(_, _, _, _, _) => 2
    case PushStore(_, _, _) => 1
    case _ => 0
  }

  // Slots still to be copied, twice.
  function CopyRank(owner: Owner): nat {
    match owner
    case GrowLoad(_, b, _, _, _, i) => if i < b then 2 * (b - i) + 1 else 0
    case GrowStore(_, b, _, _, _, i, _) => if i < b then 2 * (b - i) else 0
    case _ => 0
  }

  function StealRank(stealer: Stealer): nat {
    match stealer
    case Away => 5
    case StealLoadBottom(_) => 4
    case StealLoadBuffer(_) => 3
    case StealLoadSlot(_, _) => 2
    case StealRace(_, _) => 1
  }

  // ----- what one move of worker `w` does, by what it is doing

  // Worker `w` has the handle, if there is one, and is where it should be with or without it.
  ghost predicate Takes(w: nat, p: Pool, p': Pool, handle: Option<Handle>, otherwise: Worker) {
    && w < |p.workers| == |p.resumed| && |p'.workers| == |p'.resumed| == |p.workers|
    && p'.workers[w] == (if handle.Some? then Resuming(handle.value) else otherwise)
    && p'.resumed[w] == p.resumed[w] + (if handle.Some? then [handle.value] else [])
    && p.scheduled <= p'.scheduled
  }

  // A pool passed since `start`: worker `w` is at `worker` and has taken nothing so far.
  ghost predicate Since(start: Pool, p: Pool, w: nat, worker: Worker) {
    && PoolReached(p) && w < |p.workers| == |p.resumed| && w < |start.resumed|
    && p.workers[w] == worker && p.resumed[w] == start.resumed[w] && start.scheduled <= p.scheduled
  }

  // The access at which a pop by worker `w` ends, and what it ends with.
  ghost predicate PopEnds(p: Pool, w: nat, handle: Option<Handle>) {
    && w < |p.deques| && ChaseLevDeque.Defined(p.deques[w], OwnerMove)
    && Returned(p.deques[w], OwnerMove) == [PopReturns(handle)]
  }

  // The access at which a push by worker `w` ends: there, the handle becomes the deque's last.
  ghost predicate PushEnds(p: Pool, w: nat, handle: Handle) {
    && w < |p.deques| && ChaseLevDeque.Defined(p.deques[w], OwnerMove)
    && Effect(p.deques[w], OwnerMove) == [Pushed(handle)]
  }

  // The access at which a steal by worker `w` from `v` ends. A handle it gets it has just removed.
  ghost predicate StealEnds(p: Pool, w: nat, v: nat, handle: Option<Handle>) {
    && v < |p.deques| && ChaseLevDeque.Defined(p.deques[v], StealerMove(w))
    && Returned(p.deques[v], StealerMove(w)) == [StealReturns(w, handle)]
    && Effect(p.deques[v], StealerMove(w)) == if handle.Some? then [Stolen(w, handle.value)] else []
  }

  // The look at the injection queue.
  ghost predicate InjectEnds(p: Pool, handle: Option<Handle>) {
    handle == if p.injected == [] then None else Some(p.injected[0])
  }

  // The other workers, in the order in which worker `w` tries them.
  function Victims(w: nat, count: nat): seq<nat>
    requires w < count
  {
    seq(count - 1, k requires 0 <= k < count - 1 => Victim(w, k + 1, count))
  }

  // The steals so far of one round, the last with this result and the others without success.
  ghost predicate StealsEnd(start: Pool, asks: seq<Pool>, w: nat, count: nat, last: Option<Handle>)
    requires w < count
  {
    && |asks| < count
    && forall k :: 0 <= k < |asks| ==>
         && Since(start, asks[k], w, Stealing(k + 1))
         && StealEnds(asks[k], w, Victims(w, count)[k], if k == |asks| - 1 then last else None)
  }

  lemma OneMoreSteal(start: Pool, asks: seq<Pool>, p: Pool, w: nat, count: nat, handle: Option<Handle>)
    requires w < count && |asks| + 1 < count && StealsEnd(start, asks, w, count, None)
    requires Since(start, p, w, Stealing(|asks| + 1)) && StealEnds(p, w, Victim(w, |asks| + 1, count), handle)
    ensures StealsEnd(start, asks + [p], w, count, handle)
  {
  }

  // The steals of one round: each from the next victim, all without success but perhaps the last;
  // without success altogether only if every victim was tried.
  ghost predicate RoundEnds(start: Pool, asks: seq<Pool>, w: nat, count: nat, handle: Option<Handle>)
    requires w < count
  {
    && StealsEnd(start, asks, w, count, handle)
    && if handle.Some? then asks != [] else |asks| == count - 1
  }

  lemma VictimIs(w: nat, attempt: nat, count: nat)
    requires w < count && attempt <= count
    ensures Victim(w, attempt, count) == if w + attempt < count then w + attempt else w + attempt - count
  {
  }

  // Every other worker is tried exactly once in a round, and `w` itself never.
  lemma VictimsAreTheOthers(w: nat, count: nat, v: nat)
    requires w < count && v < count
    ensures w !in Victims(w, count)
    ensures v != w ==> v in Victims(w, count)
    ensures forall j, k :: 0 <= j < k < |Victims(w, count)| ==> Victims(w, count)[j] != Victims(w, count)[k]
  {
    forall k | 0 <= k < count - 1
      ensures Victims(w, count)[k] == if w + k + 1 < count then w + k + 1 else w + k + 1 - count
    {
      VictimIs(w, k + 1, count);
    }
    if v != w {
      var k := if w < v then v - w - 1 else v + count - w - 1;
      assert Victims(w, count)[k] == v;
    }
  }

  lemma PopMove(p: Pool, w: nat)
    requires MtSchedulers.Defined(p, WorkerMoves(w)) && w < |p.workers| && p.workers[w].Popping?
    requires OwnerRole(p.workers[w], p.deques[w])
    ensures var p' := MtSchedulers.Next(p, WorkerMoves(w));
            if p'.workers[w].Popping? then
              && p'.resumed[w] == p.resumed[w] && p'.scheduled == p.scheduled
              && PopRank(p'.deques[w].owner) < PopRank(p.deques[w].owner)
            else
              var handle := if p'.workers[w].Resuming? then Some(p'.workers[w].handle) else None;
              Takes(w, p, p', handle, Injecting) && PopEnds(p, w, handle)
  {
  }

  lemma PushMove(p: Pool, w: nat)
    requires MtSchedulers.Defined(p, WorkerMoves(w)) && w < |p.workers| && p.workers[w].Scheduling?
    requires OwnerRole(p.workers[w], p.deques[w]) && ChaseLevDeque.Inv(p.deques[w])
    ensures var p' := MtSchedulers.Next(p, WorkerMoves(w));
            && p'.resumed[w] == p.resumed[w]
            && if p'.workers[w].Scheduling? then
                 && p'.workers[w] == p.workers[w]
                 && (PushPhase(p'.deques[w].owner) < PushPhase(p.deques[w].owner)
                     || (PushPhase(p'.deques[w].owner) == PushPhase(p.deques[w].owner)
                         && CopyRank(p'.deques[w].owner) < CopyRank(p.deques[w].owner)))
               else
                 p'.workers[w] == Resuming(p.workers[w].resumed) && PushEnds(p, w, p.workers[w].handle)
  {
  }

  lemma StealMove(p: Pool, w: nat, attempt: nat)
    requires MtSchedulers.Defined(p, WorkerMoves(w)) && w < |p.workers| && p.workers[w] == Stealing(attempt)
    requires attempt <= |p.workers| && Victim(w, attempt, |p.workers|) != w
    ensures var p', v := MtSchedulers.Next(p, WorkerMoves(w)), Victim(w, attempt, |p.workers|);
            if p'.workers[w] == Stealing(attempt) then
              && p'.resumed[w] == p.resumed[w] && p'.scheduled == p.scheduled
              && StealRank(p'.deques[v].StealerAt(w)) < StealRank(p.deques[v].StealerAt(w))
            else
              var handle := if p'.workers[w].Resuming? then Some(p'.workers[w].handle) else None;
              Takes(w, p, p', handle, Stealing(attempt + 1)) && StealEnds(p, w, v, handle)
  {
  }

  class MtScheduler {
    const threadCount: nat
    var deques: seq<State>
    var injectQueue: seq<Handle>
    var workers: seq<Worker>
    var scheduled: multiset<Handle>
    var resumed: seq<seq<Handle>>

    function View(): Pool
      reads this
    {
      Pool(deques, injectQueue, workers, scheduled, resumed)
    }

    ghost predicate Valid()
      reads this
    {
      PoolReached(View()) && |workers| == threadCount
    }

    constructor (threadCount: nat, capacity: nat, injected: seq<Handle>)
      requires IsPowerOfTwo(capacity)
      ensures Valid() && this.threadCount == threadCount && injectQueue == injected
    {
      this.threadCount := threadCount;
      deques := seq(threadCount, _ => State(0, 0, 0, [Fresh(capacity)], [], Resting, map[]));
      injectQueue, workers := injected, seq(threadCount, _ => AtTop);
      scheduled, resumed := multiset(injected), seq(threadCount, _ => []);
      new;
      forall v | 0 <= v < |deques|
        ensures ChaseLevDeque.Initial(deques[v])
      {
        assert deques[v].heap == [Fresh(capacity)];
      }
      PoolReachedInitially(View());
    }

    // One access to a shared queue.
    method Access(a: MtSchedulers.Action)
      requires Valid() && MtSchedulers.Enabled(View(), a)
      modifies this
      ensures Valid() && MtSchedulers.Defined(old(View()), a) && View() == MtSchedulers.Next(old(View()), a)
    {
      PoolReachedStep(View(), a);
      var p := MtSchedulers.Next(View(), a);
      deques, injectQueue, workers, scheduled, resumed := p.deques, p.injected, p.workers, p.scheduled, p.resumed;
      ReachedRoles(old(View()), 0);
    }

    // Any number of accesses by any threads but worker `w`.
    method OthersRun(w: nat)
      requires Valid()
      modifies this
      ensures Valid() && SameFor(w, old(View()), View())
    {
      ReachedRoles(View(), 0);
      var steps: nat :| 0 <= steps;
      while steps > 0
        invariant Valid() && SameFor(w, old(View()), View())
      {
        var a: MtSchedulers.Action := *;
        if MtSchedulers.Enabled(View(), a) && !By(a, w) {
          ghost var p := View();
          Access(a);
          OthersLeave(p, a, w);
          SameForTransitive(w, old(View()), p, View());
        }
        steps := steps - 1;
      }
    }

    // Other threads run, then worker `w` makes its next access, from `mid`.
    method Move(w: nat) returns (ghost mid: Pool)
      requires Valid() && w < threadCount && !workers[w].Resuming?
      modifies this
      ensures Valid() && PoolReached(mid) && SameFor(w, old(View()), mid)
      ensures MtSchedulers.Defined(mid, WorkerMoves(w)) && View() == MtSchedulers.Next(mid, WorkerMoves(w))
    {
      OthersRun(w);
      mid := View();
      Access(WorkerMoves(w));
    }

    // `pop` on its own deque. It ends with the access made from `mid`.
    method PopLocal(w: nat) returns (handle: Option<Handle>, ghost mid: Pool)
      requires Valid() && w < threadCount && workers[w] == AtTop
      modifies this
      ensures Valid() && Takes(w, old(View()), View(), handle, Injecting)
      ensures Since(old(View()), mid, w, Popping) && PopEnds(mid, w, handle)
      ensures MtSchedulers.Defined(mid, WorkerMoves(w)) && View() == MtSchedulers.Next(mid, WorkerMoves(w))
    {
      ReachedRoles(View(), w);
      mid := Move(w);
      ReachedRoles(View(), w);
      while workers[w].Popping?
        invariant Valid() && |resumed| == threadCount == |deques|
        invariant if workers[w].Popping? then Since(old(View()), View(), w, Popping)
                  else
                    var found := if workers[w].Resuming? then Some(workers[w].handle) else None;
                    && Takes(w, old(View()), View(), found, Injecting)
                    && Since(old(View()), mid, w, Popping) && PopEnds(mid, w, found)
        invariant MtSchedulers.Defined(mid, WorkerMoves(w)) && View() == MtSchedulers.Next(mid, WorkerMoves(w))
        decreases if workers[w].Popping? then PopRank(deques[w].owner) + 1 else 0
      {
        mid := Move(w);
        ReachedRoles(mid, w);
        PopMove(mid, w);
        ReachedRoles(View(), w);
      }
      handle := if workers[w].Resuming? then Some(workers[w].handle) else None;
    }

    // The look at the injection queue takes what is in front of it at that moment, and leaves the
    // deques alone.
    method TryInject(w: nat) returns (handle: Option<Handle>, ghost mid: Pool)
      requires Valid() && w < threadCount && workers[w] == Injecting
      modifies this
      ensures Valid() && Takes(w, old(View()), View(), handle, Stealing(1))
      ensures Since(old(View()), mid, w, Injecting) && deques == mid.deques && scheduled == mid.scheduled
      ensures mid.injected == (if handle.Some? then [handle.value] else []) + injectQueue
      ensures handle.None? ==> injectQueue == []
    {
      ReachedRoles(View(), w);
      OthersRun(w);
      mid := View();
      handle := if injectQueue == [] then None else Some(injectQueue[0]);
      Access(WorkerMoves(w));
      ReachedRoles(View(), w);
    }

    // `steal` on the deque of the `attempt`-th victim. It ends with the access made from `mid`.
    method StealOnce(w: nat, attempt: nat) returns (handle: Option<Handle>, ghost mid: Pool)
      requires Valid() && w < threadCount && workers[w] == Stealing(attempt)
      requires attempt <= threadCount && Victim(w, attempt, threadCount) != w
      modifies this
      ensures Valid() && Takes(w, old(View()), View(), handle, Stealing(attempt + 1))
      ensures Since(old(View()), mid, w, Stealing(attempt)) && StealEnds(mid, w, Victim(w, attempt, threadCount), handle)
      ensures MtSchedulers.Defined(mid, WorkerMoves(w)) && View() == MtSchedulers.Next(mid, WorkerMoves(w))
    {
      var v := Victim(w, attempt, threadCount);
      ReachedRoles(View(), w);
      mid := Move(w);
      StealMove(mid, w, attempt);
      ReachedRoles(View(), w);
      while workers[w] == Stealing(attempt)
        invariant Valid() && |resumed| == threadCount == |deques|
        invariant if workers[w] == Stealing(attempt) then Since(old(View()), View(), w, Stealing(attempt))
                  else
                    var found := if workers[w].Resuming? then Some(workers[w].handle) else None;
                    && Takes(w, old(View()), View(), found, Stealing(attempt + 1))
                    && Since(old(View()), mid, w, Stealing(attempt)) && StealEnds(mid, w, v, found)
        invariant MtSchedulers.Defined(mid, WorkerMoves(w)) && View() == MtSchedulers.Next(mid, WorkerMoves(w))
        decreases if workers[w] == Stealing(attempt) then StealRank(deques[v].StealerAt(w)) + 1 else 0
      {
        mid := Move(w);
        StealMove(mid, w, attempt);
        ReachedRoles(View(), w);
      }
      handle := if workers[w].Resuming? then Some(workers[w].handle) else None;
    }

    // The other workers in turn, starting with the next one. The steal from the k-th of them ends
    // with the access made from `asks[k]`.
    method TrySteal(w: nat) returns (handle: Option<Handle>, ghost asks: seq<Pool>)
      requires Valid() && w < threadCount && workers[w] == Stealing(1)
      modifies this
      ensures Valid() && Takes(w, old(View()), View(), handle, AtTop)
      ensures RoundEnds(old(View()), asks, w, threadCount, handle)
    {
      ReachedRoles(View(), w);
      var i := 1;
      asks := [];
      while i <= threadCount
        invariant 1 <= i <= threadCount + 1 && Valid() && |resumed| == threadCount
        invariant Since(old(View()), View(), w, Stealing(i))
        invariant |asks| == (if i <= threadCount then i - 1 else threadCount - 1)
        invariant StealsEnd(old(View()), asks, w, threadCount, None)
      {
        VictimIs(w, i, threadCount);
        if Victim(w, i, threadCount) == w {
          ghost var mid := Move(w);
          ReachedRoles(View(), w);
        } else {
          ghost var mid;
          handle, mid := StealOnce(w, i);
          OneMoreSteal(old(View()), asks, mid, w, threadCount, handle);
          asks := asks + [mid];
          if handle.Some? {
            return;
          }
        }
        i := i + 1;
      }
      ghost var mid := Move(w);
      ReachedRoles(View(), w);
      handle := None;
    }

    // One turn of the worker loop: its own deque first, then the injection queue, then the others'
    // deques. What it finds it has taken, alone, to resume it.
    method FindWork(w: nat)
      returns (handle: Option<Handle>, source: Source, ghost popped: Pool, ghost looked: Pool, ghost asks: seq<Pool>)
      requires Valid() && w < threadCount && workers[w] == AtTop
      modifies this
      ensures Valid() && Takes(w, old(View()), View(), handle, AtTop)
      ensures handle.Some? ==> handle.value in scheduled
      ensures source != OthersDeques ==> handle.Some?
      ensures Since(old(View()), popped, w, Popping) && PopEnds(popped, w, if source == OwnDeque then handle else None)
      ensures source != OwnDeque ==>
                && Since(old(View()), looked, w, Injecting)
                && InjectEnds(looked, if source == InjectionQueue then handle else None)
      ensures source == OthersDeques ==> RoundEnds(old(View()), asks, w, threadCount, handle)
    {
      source := OwnDeque;
      handle, popped := PopLocal(w);
      looked, asks := popped, [];
      if handle.None? {
        source := InjectionQueue;
        handle, looked := TryInject(w);
      }
      if handle.None? {
        source := OthersDeques;
        handle, asks := TrySteal(w);
      }
      FoundWasScheduled(old(View()), View(), w, handle);
    }

    // `schedule`, on worker `w` while it resumes a coroutine, or on a thread that is no worker. The
    // one puts the handle at the end of its own deque, with the access made from `mid`; the other,
    // at the end of the injection queue.
    method Schedule(handle: Handle, worker: Option<nat>) returns (ghost mid: Pool)
      requires Valid()
      requires worker.Some? ==> worker.value < threadCount && workers[worker.value].Resuming?
      modifies this
      ensures Valid()
      ensures handle == NULL_HANDLE ==> View() == old(View())
      ensures handle != NULL_HANDLE && worker.None? ==>
                View() == old(View()).(injected := old(injectQueue) + [handle],
                                       scheduled := old(scheduled) + multiset{handle})
      ensures handle != NULL_HANDLE && worker.Some? ==>
                && PoolReached(mid) && PushEnds(mid, worker.value, handle)
                && MtSchedulers.Defined(mid, WorkerMoves(worker.value))
                && View() == MtSchedulers.Next(mid, WorkerMoves(worker.value))
                && old(scheduled) + multiset{handle} <= scheduled
      ensures worker.Some? ==> |workers| == |resumed| == threadCount == |old(resumed)|
      ensures worker.Some? ==> workers[worker.value] == old(workers[worker.value]) && resumed[worker.value] == old(resumed)[worker.value]
    {
      ReachedRoles(View(), 0);
      mid := View();
      if handle == NULL_HANDLE {
        return;
      }
      match worker {
        case None =>
          Access(ScheduleOutside(handle));
        case Some(w) =>
          Access(ScheduleInside(w, handle));
          mid := PushLocal(w);
      }
    }

    // The rest of a push on its own deque. It ends with the access made from `mid`.
    method PushLocal(w: nat) returns (ghost mid: Pool)
      requires Valid() && w < threadCount && workers[w].Scheduling?
      modifies this
      ensures Valid() && |workers| == |resumed| == |old(resumed)| == threadCount
      ensures workers[w] == Resuming(old(workers[w].resumed)) && resumed[w] == old(resumed)[w]
      ensures old(scheduled) <= scheduled
      ensures PoolReached(mid) && PushEnds(mid, w, old(workers[w].handle))
      ensures MtSchedulers.Defined(mid, WorkerMoves(w)) && View() == MtSchedulers.Next(mid, WorkerMoves(w))
    {
      ReachedRoles(View(), w);
      mid := View();
      while workers[w].Scheduling?
        invariant Valid() && |resumed| == threadCount == |deques| && old(scheduled) <= scheduled
        invariant resumed[w] == old(resumed)[w]
        invariant workers[w] == old(workers[w]) ||
                  (&& workers[w] == Resuming(old(workers[w].resumed))
                   && PoolReached(mid) && PushEnds(mid, w, old(workers[w].handle))
                   && MtSchedulers.Defined(mid, WorkerMoves(w)) && View() == MtSchedulers.Next(mid, WorkerMoves(w)))
        decreases if workers[w].Scheduling? then PushPhase(deques[w].owner) + 1 else 0,
                  CopyRank(deques[w].owner)
      {
        mid := Move(w);
        ReachedRoles(mid, w);
        ReachedAccounted(mid, 0);
        PushMove(mid, w);
        ReachedRoles(View(), w);
      }
    }

    // A number of turns of the worker loop, each resumed coroutine scheduling what it likes. It
    // resumes, in order, at most one handle a turn, each of which had been scheduled.
    method WorkerLoop(w: nat, turns: nat) returns (ran: seq<Handle>)
      requires Valid() && w < threadCount && workers[w] == AtTop
      modifies this
      ensures Valid() && |workers| == |resumed| == |old(resumed)| == threadCount && workers[w] == AtTop
      ensures |ran| <= turns && resumed[w] == old(resumed)[w] + ran
      ensures forall h :: h in ran ==> 0 < Count(resumed[w], h) <= scheduled[h]
    {
      var n := 0;
      ReachedRoles(View(), w);
      ran := [];
      while n < turns
        invariant Valid() && |workers| == |resumed| == threadCount && workers[w] == AtTop
        invariant n <= turns && |ran| <= n && resumed[w] == old(resumed)[w] + ran
      {
        var handle, _, _, _, _ := FindWork(w);
        if handle.Some? {
          Run(w);
          ran := ran + [handle.value];
        }
        n := n + 1;
      }
      forall h | h in ran
        ensures 0 < Count(resumed[w], h) <= scheduled[h]
      {
        TakenWasScheduled(View(), w, h);
      }
    }

    method Run(w: nat)
      requires Valid() && w < threadCount && workers[w].Resuming?
      modifies this
      ensures Valid() && |workers| == |resumed| == |old(resumed)| == threadCount
      ensures workers[w] == AtTop && resumed[w] == old(resumed)[w]
    {
      ReachedRoles(View(), w);
      var calls: nat :| 0 <= calls;
      while calls > 0
        invariant Valid() && |workers| == |resumed| == threadCount
        invariant workers[w].Resuming? && resumed[w] == old(resumed)[w]
      {
        var next: Handle :| 0 <= next;
        ghost var _ := Schedule(next, Some(w));
        calls := calls - 1;
      }
      Access(ResumeEnds(w));
      ReachedRoles(View(), w);
    }
  }
}
