/**
  The work-stealing deque as a state machine over its atomic accesses.
*/
module ChaseLevDeque {
  import opened Collections
  import opened CircularBuffers

  type Thread = nat

  // Where the owner stands. `b` and `t` are what it read from `bottom` (less one in `pop`) and
  // from `top`; buffers are named by their place in the heap.
  datatype Owner =
    | Resting
    // push
    | PushLoadTop(value: Handle, b: nat)
    | PushLoadBuffer(value: Handle, b: nat, t: nat)
    | GrowLoad(value: Handle, b: nat, t: nat, buf: nat, grown: nat, i: nat)
    | GrowStore(value: Handle, b: nat, t: nat, buf: nat, grown: nat, i: nat, copied: Handle)
    | GrowPublish(value: Handle, b: nat, t: nat, buf: nat, grown: nat)
    | PushStore(value: Handle, b: nat, buf: nat)
    | PushPublish(value: Handle, b: nat)
    // pop
    | PopLoadBuffer(last: int)
    | PopReserve(last: int, buf: nat)
    | PopLoadTop(last: int, buf: nat)
    | PopLoadSlot(last: int, buf: nat, t: nat)
    | PopRace(last: int, t: nat, taken: Handle)
    | PopRestore(last: int, result: Option<Handle>)

  datatype Stealer =
    | Away
    | StealLoadBottom(t: nat)
    | StealLoadBuffer(t: nat)
    | StealLoadSlot(t: nat, buf: nat)
    | StealRace(t: nat, taken: Handle)

  // Every load, store and compare-and-swap of `push`, `pop`, `steal` and `grow` is one step; the
  // owner and each of any number of stealers has a program counter with the locals it still
  // needs. Steps interleave sequentially consistently. Buffers live in a heap that only grows, so
  // a stealer may go on using a buffer after it has been retired.
  datatype State = State(
    top: nat,
    bottom: int,
    buffer: nat,
    heap: seq<Buffer>,
    retired: seq<nat>,
    owner: Owner,
    stealers: map<Thread, Stealer>)
  {
    function StealerAt(thread: Thread): Stealer {
      if thread in stealers then stealers[thread] else Away
    }
  }

  // Start a push or a pop (its first load), or make the next access of the one that is running.
  datatype Action = StartPush(value: Handle) | StartPop | OwnerMove | StealerMove(thread: Thread)

  ghost predicate Initial(s: State) {
    && s.top == 0 && s.bottom == 0
    && s.buffer == 0
    && (exists capacity: nat :: IsPowerOfTwo(capacity) && s.heap == [Fresh(capacity)])
    && s.retired == []
    && s.owner == Resting
    && s.stealers == map[]
  }

  predicate Enabled(s: State, a: Action) {
    match a
    case StartPush(_) => s.owner.Resting?
    case StartPop => s.owner.Resting?
    case OwnerMove => !s.owner.Resting?
    case StealerMove(_) => true
  }

  // ----- no access is ever out of range

  ghost predicate InHeap(s: State, buf: nat) {
    buf < |s.heap| && s.heap[buf].Valid()
  }

  // What the accesses of the next step need in order to be defined.
  ghost predicate Defined(s: State, a: Action) {
    match a
    case StartPush(_) => 0 <= s.bottom
    case StartPop => true
    case OwnerMove => (
      match s.owner
      case PushLoadBuffer(_, _, _) => InHeap(s, s.buffer)
      case GrowLoad(_, _, _, buf, _, _) => InHeap(s, buf)
      case GrowStore(_, _, _, _, grown, _, _) => InHeap(s, grown)
      case PushStore(_, _, buf) => InHeap(s, buf)
      case PopLoadTop(last, buf) => InHeap(s, buf)
      case PopLoadSlot(last, buf, _) => 0 <= last && InHeap(s, buf)
      case _ => true
    )
    case StealerMove(thread) => (
      match s.StealerAt(thread)
      case StealLoadSlot(_, buf) => InHeap(s, buf)
      case _ => true
    )
  }

  // ----- steps

  function OwnerNext(s: State): State
    requires Defined(s, OwnerMove)
  {
    match s.owner
    case Resting => s
    case PushLoadTop(value, b) =>
      s.(owner := PushLoadBuffer(value, b, s.top))
    case PushLoadBuffer(value, b, t) =>
      var buf := s.buffer;
      if b - t >= s.heap[buf].Capacity() then
        var grown := |s.heap|;
        s.(heap := s.heap + [Fresh(2 * s.heap[buf].Capacity())],
           owner := GrowLoad(value, b, t, buf, grown, t))
      else
        s.(owner := PushStore(value, b, buf))
    case GrowLoad(value, b, t, buf, grown, i) =>
      s.(owner := GrowStore(value, b, t, buf, grown, i, s.heap[buf].Load(i)))
    case GrowStore(value, b, t, buf, grown, i, copied) =>
      s.(heap := s.heap[grown := s.heap[grown].Store(i, copied)],
         owner := if i + 1 < b then GrowLoad(value, b, t, buf, grown, i + 1)
                  else GrowPublish(value, b, t, buf, grown))
    case GrowPublish(value, b, t, buf, grown) =>
      s.(retired := s.retired + [buf], buffer := grown, owner := PushStore(value, b, grown))
    case PushStore(value, b, buf) =>
      s.(heap := s.heap[buf := s.heap[buf].Store(b, value)], owner := PushPublish(value, b))
    case PushPublish(value, b) =>
      s.(bottom := b + 1, owner := Resting)
    case PopLoadBuffer(last) =>
      s.(owner := PopReserve(last, s.buffer))
    case PopReserve(last, buf) =>
      s.(bottom := last, owner := PopLoadTop(last, buf))
    case PopLoadTop(last, buf) =>
      s.(owner := if s.top <= last then PopLoadSlot(last, buf, s.top) else PopRestore(last, None))
    case PopLoadSlot(last, buf, t) =>
      var taken := s.heap[buf].Load(last);
      s.(owner := if t == last then PopRace(last, t, taken) else Resting)
    case PopRace(last, t, taken) =>
      if s.top == t then s.(top := t + 1, owner := PopRestore(last, Some(taken)))
      else s.(owner := PopRestore(last, None))
    case PopRestore(last, _) =>
      s.(bottom := last + 1, owner := Resting)
  }

  function StealerNext(s: State, thread: Thread): State
    requires Defined(s, StealerMove(thread))
  {
    match s.StealerAt(thread)
    case Away =>
      s.(stealers := s.stealers[thread := StealLoadBottom(s.top)])
    case StealLoadBottom(t) =>
      s.(stealers := s.stealers[thread := if t < s.bottom then StealLoadBuffer(t) else Away])
    case StealLoadBuffer(t) =>
      s.(stealers := s.stealers[thread := StealLoadSlot(t, s.buffer)])
    case StealLoadSlot(t, buf) =>
      s.(stealers := s.stealers[thread := StealRace(t, s.heap[buf].Load(t))])
    case StealRace(t, _) =>
      var next := s.(stealers := s.stealers[thread := Away]);
      if s.top == t then next.(top := t + 1) else next
  }

  function Next(s: State, a: Action): State
    requires Defined(s, a)
  {
    match a
    case StartPush(value) => s.(owner := PushLoadTop(value, s.bottom))
    case StartPop => s.(owner := PopLoadBuffer(s.bottom - 1))
    case OwnerMove => OwnerNext(s)
    case StealerMove(thread) => StealerNext(s, thread)
  }

  // ----- the abstract deque

  // The effective end of the deque. While a pop has reserved the last element but has not yet
  // settled whether it takes it, that element still belongs to the deque.
  function End(s: State): int {
    match s.owner
    case PopLoadTop(last, _) => last + 1
    case PopLoadSlot(last, _, t) => if t == last then last + 1 else last
    case PopRace(last, _, _) => last + 1
    case PopRestore(last, _) => last + 1
    case _ => s.bottom
  }

  ghost predicate WellShaped(s: State) {
    && (forall k :: 0 <= k < |s.heap| ==> s.heap[k].Valid())
    && s.buffer < |s.heap|
    && s.top <= End(s) <= s.top + s.heap[s.buffer].Capacity()
  }

  ghost function Contents(s: State): seq<Handle>
    requires WellShaped(s)
  {
    seq<Handle>(End(s) - s.top, k requires 0 <= k < End(s) - s.top => s.heap[s.buffer].Load(s.top + k))
  }

  // What happens to the abstract deque.
  datatype Event = Pushed(value: Handle) | Popped(value: Handle) | FoundEmpty | Stolen(thread: Thread, value: Handle)

  // The sequential deque: push and pop at the right end, steal at the left. None is a step the
  // sequential deque does not allow.
  function Apply(q: seq<Handle>, e: Event): Option<seq<Handle>> {
    match e
    case Pushed(v) => Some(q + [v])
    case Popped(v) => if q != [] && q[|q| - 1] == v then Some(q[..|q| - 1]) else None
    case FoundEmpty => if q == [] then Some(q) else None
    case Stolen(_, v) => if q != [] && q[0] == v then Some(q[1..]) else None
  }

  function Replay(q: seq<Handle>, events: seq<Event>): Option<seq<Handle>>
    decreases |events|
  {
    if events == [] then Some(q)
    else
      var applied := Apply(q, events[0]);
      if applied.None? then None else Replay(applied.value, events[1..])
  }

  // The event a step stands for: the point at which an operation takes effect.
  function Effect(s: State, a: Action): seq<Event>
    requires Defined(s, a)
  {
    match a
    case OwnerMove => (
      match s.owner
      case PushPublish(value, _) => [Pushed(value)]
      case PopLoadTop(last, buf) =>
        if s.top < last then [Popped(s.heap[buf].Load(last))]
        else if s.top == last then []
        else [FoundEmpty]
      case PopRace(_, t, taken) => if s.top == t then [Popped(taken)] else [FoundEmpty]
      case _ => []
    )
    case StealerMove(thread) => (
      match s.StealerAt(thread)
      case StealRace(t, taken) => if s.top == t then [Stolen(thread, taken)] else []
      case _ => []
    )
    case _ => []
  }

  // What a call gives back when it ends.
  datatype Return =
    | PushReturns(value: Handle)
    | PopReturns(result: Option<Handle>)
    | StealReturns(thread: Thread, result: Option<Handle>)

  function Returned(s: State, a: Action): seq<Return>
    requires Defined(s, a)
  {
    match a
    case OwnerMove => (
      match s.owner
      case PushPublish(value, _) => [PushReturns(value)]
      case PopLoadSlot(last, buf, t) => if t == last then [] else [PopReturns(Some(s.heap[buf].Load(last)))]
      case PopRestore(_, result) => [PopReturns(result)]
      case _ => []
    )
    case StealerMove(thread) => (
      match s.StealerAt(thread)
      case StealLoadBottom(t) => if t < s.bottom then [] else [StealReturns(thread, None)]
      case StealRace(t, taken) => [StealReturns(thread, if s.top == t then Some(taken) else None)]
      case _ => []
    )
    case _ => []
  }

  // ----- the invariant

  ghost predicate Copied(s: State, buf: nat, grown: nat, t: nat, i: nat) {
    && InHeap(s, buf) && InHeap(s, grown)
    && forall j :: t <= j < i ==> s.heap[grown].Load(j) == s.heap[buf].Load(j)
  }

  // A growth in progress: its target is the youngest buffer, not yet published, and holds the
  // indices copied so far.
  ghost predicate Growing(s: State, b: nat, t: nat, buf: nat, grown: nat, i: nat) {
    && b == s.bottom && t <= s.top
    && t <= i <= b
    && buf == s.buffer && grown == |s.heap| - 1 && buf < grown
    && s.heap[grown].Capacity() == 2 * s.heap[buf].Capacity()
    && b - t == s.heap[buf].Capacity()
    && Copied(s, buf, grown, t, i)
  }

  ghost predicate OwnerInv(s: State)
    requires WellShaped(s)
  {
    match s.owner
    case Resting => true
    case PushLoadTop(_, b) => b == s.bottom
    case PushLoadBuffer(_, b, t) =>
      b == s.bottom && t <= s.top && t <= b && b - t <= s.heap[s.buffer].Capacity()
    case GrowLoad(_, b, t, buf, grown, i) => Growing(s, b, t, buf, grown, i) && i < b
    case GrowStore(_, b, t, buf, grown, i, copied) =>
      Growing(s, b, t, buf, grown, i) && i < b && copied == s.heap[buf].Load(i)
    case GrowPublish(_, b, t, buf, grown) => Growing(s, b, t, buf, grown, b)
    case PushStore(_, b, buf) =>
      b == s.bottom && buf == s.buffer && b - s.top < s.heap[buf].Capacity()
    case PushPublish(value, b) =>
      b == s.bottom && b - s.top < s.heap[s.buffer].Capacity() && s.heap[s.buffer].Load(b) == value
    case PopLoadBuffer(last) => last == s.bottom - 1
    case PopReserve(last, buf) => last == s.bottom - 1 && buf == s.buffer
    case PopLoadTop(last, buf) => last == s.bottom && buf == s.buffer
    case PopLoadSlot(last, buf, t) =>
      last == s.bottom && buf == s.buffer && t <= s.top && t <= last
    case PopRace(last, t, taken) =>
      && last == s.bottom && t == last && t <= s.top
      && taken == s.heap[s.buffer].Load(last)
    case PopRestore(last, _) => last == s.bottom && s.top == last + 1
  }

  // A buffer the owner is still filling is unknown to every stealer.
  function Unpublished(s: State): set<nat> {
    match s.owner
    case GrowLoad(_, _, _, _, grown, _) => {grown}
    case GrowStore(_, _, _, _, grown, _, _) => {grown}
    case GrowPublish(_, _, _, _, grown) => {grown}
    case _ => {}
  }

  // As long as `top` is what a stealer read, the element it is after is still in the deque, and
  // the buffer it holds, retired or not, still has that element.
  ghost predicate StealerInv(s: State, thread: Thread)
    requires WellShaped(s)
  {
    match s.StealerAt(thread)
    case Away => true
    case StealLoadBottom(t) => t <= s.top
    case StealLoadBuffer(t) => t <= s.top && (t == s.top ==> t < End(s))
    case StealLoadSlot(t, buf) =>
      && t <= s.top && InHeap(s, buf) && buf !in Unpublished(s)
      && (t == s.top ==> t < End(s) && s.heap[buf].Load(t) == s.heap[s.buffer].Load(t))
    case StealRace(t, taken) =>
      && t <= s.top
      && (t == s.top ==> t < End(s) && taken == s.heap[s.buffer].Load(t))
  }

  // Every buffer but the current one and one being filled has been retired, oldest first.
  ghost predicate RetiredInv(s: State) {
    && |s.retired| == s.buffer
    && (forall k :: 0 <= k < |s.retired| ==> s.retired[k] == k)
    && |s.heap| == s.buffer + 1 + |Unpublished(s)|
  }

  ghost predicate Inv(s: State) {
    && WellShaped(s)
    && OwnerInv(s)
    && RetiredInv(s)
    && forall thread :: StealerInv(s, thread)
  }

  lemma InvIsDefined(s: State, a: Action)
    requires Inv(s) && Enabled(s, a)
    ensures Defined(s, a)
  {
    match a
    case StealerMove(thread) => assert StealerInv(s, thread);
    case _ =>
  }

  lemma InitialInv(s: State)
    requires Initial(s)
    ensures Inv(s) && Contents(s) == []
  {
  }

  // ----- every step keeps the invariant

  // A step that leaves the buffers, `top` and the end of the deque alone.
  lemma QuietOwnerStep(s: State, s': State)
    requires Inv(s) && WellShaped(s')
    requires s'.top == s.top && s'.buffer == s.buffer && s'.heap == s.heap && s'.stealers == s.stealers
    requires End(s') == End(s) && Unpublished(s') == Unpublished(s)
    ensures Contents(s') == Contents(s)
    ensures forall thread :: StealerInv(s', thread)
  {
    forall thread
      ensures StealerInv(s', thread)
    {
      assert StealerInv(s, thread);
    }
  }

  lemma StartKeepsInv(s: State, a: Action)
    requires Inv(s) && Enabled(s, a) && (a.StartPush? || a.StartPop?)
    ensures Defined(s, a) && Inv(Next(s, a)) && Contents(Next(s, a)) == Contents(s)
  {
    QuietOwnerStep(s, Next(s, a));
  }

  // Storing into a slot outside the live window, or into an unpublished buffer.
  lemma HeapWriteKeepsLive(s: State, s': State, buf: nat, index: nat, value: Handle)
    requires Inv(s) && WellShaped(s') && InHeap(s, buf)
    requires s'.top == s.top && s'.buffer == s.buffer && s'.stealers == s.stealers
    requires s'.heap == s.heap[buf := s.heap[buf].Store(index, value)]
    requires End(s') == End(s)
    requires Unpublished(s') <= Unpublished(s)
    requires buf in Unpublished(s) || (buf == s.buffer && index == End(s) && index < s.top + s.heap[buf].Capacity())
    ensures Contents(s') == Contents(s)
    ensures forall thread :: StealerInv(s', thread)
  {
    forall i: nat | s.top <= i < End(s)
      ensures s'.heap[s.buffer].Load(i) == s.heap[s.buffer].Load(i)
    {
      LoadAfterStore(s.heap[buf], index, value, i);
    }
    forall k | 0 <= k < End(s) - s.top
      ensures Contents(s')[k] == Contents(s)[k]
    {
    }
    forall thread
      ensures StealerInv(s', thread)
    {
      assert StealerInv(s, thread);
    }
  }

  lemma AllocateKeepsLive(s: State, s': State, blank: Buffer)
    requires Inv(s) && blank.Valid() && WellShaped(s')
    requires s'.top == s.top && s'.buffer == s.buffer && s'.stealers == s.stealers
    requires s'.heap == s.heap + [blank]
    requires End(s') == End(s)
    requires Unpublished(s) == {} && Unpublished(s') <= {|s.heap|}
    ensures Contents(s') == Contents(s)
    ensures forall thread :: StealerInv(s', thread)
  {
    forall thread
      ensures StealerInv(s', thread)
    {
      assert StealerInv(s, thread);
    }
  }

  // Publishing the grown buffer: it has every live element, so the deque does not change, and a
  // stealer holding the retired buffer still finds the element it is after.
  lemma PublishKeepsInv(s: State)
    requires Inv(s) && s.owner.GrowPublish?
    ensures Inv(OwnerNext(s)) && Contents(OwnerNext(s)) == Contents(s)
  {
    var s' := OwnerNext(s);
    var GrowPublish(_, b, t, buf, grown) := s.owner;
    assert forall i: nat :: s.top <= i < End(s) ==> s'.heap[grown].Load(i) == s.heap[buf].Load(i);
    forall thread
      ensures StealerInv(s', thread)
    {
      assert StealerInv(s, thread);
    }
  }

  // Reading `top`, the buffer, or a slot to be copied; allocating when the buffer is full.
  lemma PushReadKeepsInv(s: State)
    requires Inv(s) && (s.owner.PushLoadTop? || s.owner.PushLoadBuffer? || s.owner.GrowLoad?)
    ensures Inv(OwnerNext(s)) && Contents(OwnerNext(s)) == Contents(s)
  {
    var s' := OwnerNext(s);
    match s.owner
    case PushLoadBuffer(_, b, t) =>
      if b - t >= s.heap[s.buffer].Capacity() {
        AllocateKeepsInv(s);
      } else {
        QuietOwnerStep(s, s');
      }
    case _ => QuietOwnerStep(s, s');
  }

  lemma AllocateKeepsInv(s: State)
    requires Inv(s) && s.owner.PushLoadBuffer? && s.owner.b - s.owner.t >= s.heap[s.buffer].Capacity()
    ensures Inv(OwnerNext(s)) && Contents(OwnerNext(s)) == Contents(s)
  {
    AllocateKeepsLive(s, OwnerNext(s), Fresh(2 * s.heap[s.buffer].Capacity()));
  }

  lemma GrowStoreKeepsInv(s: State)
    requires Inv(s) && s.owner.GrowStore?
    ensures Inv(OwnerNext(s)) && Contents(OwnerNext(s)) == Contents(s)
  {
    var s' := OwnerNext(s);
    var GrowStore(_, b, t, buf, grown, i, copied) := s.owner;
    HeapWriteKeepsLive(s, s', grown, i, copied);
    forall j: nat | t <= j < i + 1
      ensures s'.heap[grown].Load(j) == s'.heap[buf].Load(j)
    {
      LoadAfterStore(s.heap[grown], i, copied, j);
    }
  }

  lemma PushStoreKeepsInv(s: State)
    requires Inv(s) && s.owner.PushStore?
    ensures Inv(OwnerNext(s)) && Contents(OwnerNext(s)) == Contents(s)
  {
    var PushStore(value, b, buf) := s.owner;
    HeapWriteKeepsLive(s, OwnerNext(s), buf, b, value);
    LoadAfterStore(s.heap[buf], b, value, b);
  }

  // The step's effect on the abstract deque is its event, and the invariant survives.
  ghost predicate Refines(s: State, a: Action) {
    && WellShaped(s) && Defined(s, a)
    && Inv(Next(s, a))
    && Replay(Contents(s), Effect(s, a)) == Some(Contents(Next(s, a)))
  }

  lemma PushPublishRefines(s: State)
    requires Inv(s) && s.owner.PushPublish?
    ensures Refines(s, OwnerMove)
  {
    var s' := OwnerNext(s);
    forall thread
      ensures StealerInv(s', thread)
    {
      assert StealerInv(s, thread);
    }
    assert Contents(s') == Contents(s) + [s.owner.value];
    ReplayOne(Contents(s), Pushed(s.owner.value));
  }

  lemma ReplayOne(q: seq<Handle>, e: Event)
    ensures Replay(q, [e]) == Apply(q, e)
  {
  }

  // A pop that finds more than one element takes the rightmost at the moment it reads `top`; one
  // that finds none reports an empty deque, which it is at that moment.
  lemma PopLoadTopRefines(s: State)
    requires Inv(s) && s.owner.PopLoadTop?
    ensures Refines(s, OwnerMove)
  {
    var s' := OwnerNext(s);
    var last := s.owner.last;
    forall thread
      ensures StealerInv(s', thread)
    {
      assert StealerInv(s, thread);
    }
    if s.top < last {
      assert Contents(s') == Contents(s)[..|Contents(s)| - 1];
      ReplayOne(Contents(s), Popped(s.heap[s.buffer].Load(last)));
    } else if s.top == last {
      assert Contents(s') == Contents(s);
    } else {
      assert Contents(s) == [] == Contents(s');
      ReplayOne([], FoundEmpty);
    }
  }

  // The race for the last element.
  lemma PopRaceRefines(s: State)
    requires Inv(s) && s.owner.PopRace?
    ensures Refines(s, OwnerMove)
  {
    var s' := OwnerNext(s);
    var PopRace(last, t, taken) := s.owner;
    forall thread
      ensures StealerInv(s', thread)
    {
      assert StealerInv(s, thread);
    }
    assert Contents(s') == [];
    if s.top == t {
      assert Contents(s) == [taken];
      ReplayOne([taken], Popped(taken));
    } else {
      assert Contents(s) == [];
      ReplayOne([], FoundEmpty);
    }
  }

  lemma QuietPopStepRefines(s: State)
    requires Inv(s)
    requires s.owner.PopLoadBuffer? || s.owner.PopReserve? || s.owner.PopLoadSlot? || s.owner.PopRestore?
    ensures Refines(s, OwnerMove)
  {
    QuietOwnerStep(s, OwnerNext(s));
  }

  lemma ShapeIgnoresStealers(s: State, stealers: map<Thread, Stealer>)
    requires WellShaped(s)
    ensures WellShaped(s.(stealers := stealers)) && Contents(s.(stealers := stealers)) == Contents(s)
  {
  }

  lemma OwnerIgnoresStealers(s: State, stealers: map<Thread, Stealer>)
    requires WellShaped(s) && WellShaped(s.(stealers := stealers)) && OwnerInv(s)
    ensures OwnerInv(s.(stealers := stealers))
  {
  }

  // Only one stealer's program counter changes.
  lemma QuietStealerStep(s: State, s': State, thread: Thread, stealer: Stealer)
    requires Inv(s) && s' == s.(stealers := s.stealers[thread := stealer])
    requires WellShaped(s') ==> StealerInv(s', thread)
    ensures Inv(s') && Contents(s') == Contents(s)
  {
    ShapeIgnoresStealers(s, s'.stealers);
    OwnerIgnoresStealers(s, s'.stealers);
    forall other
      ensures StealerInv(s', other)
    {
      if other != thread {
        assert StealerInv(s, other);
        StealerInvFrame(s, s', other);
      }
    }
  }

  lemma StealerInvFrame(s: State, s': State, thread: Thread)
    requires WellShaped(s) && StealerInv(s, thread)
    requires s' == s.(stealers := s'.stealers)
    requires s'.StealerAt(thread) == s.StealerAt(thread)
    ensures WellShaped(s') && StealerInv(s', thread)
  {
  }

  lemma StealerQuietRefines(s: State, thread: Thread)
    requires Inv(s) && !s.StealerAt(thread).StealRace?
    ensures Refines(s, StealerMove(thread))
  {
    InvIsDefined(s, StealerMove(thread));
    assert StealerInv(s, thread);
    var s' := StealerNext(s, thread);
    QuietStealerStep(s, s', thread, s'.StealerAt(thread));
  }

  // A winning compare-and-swap takes the leftmost element, whatever buffer the stealer read it
  // from; a losing one changes nothing.
  lemma StealRaceRefines(s: State, thread: Thread)
    requires Inv(s) && s.StealerAt(thread).StealRace?
    ensures Refines(s, StealerMove(thread))
  {
    var StealRace(t, taken) := s.StealerAt(thread);
    assert StealerInv(s, thread);
    var left := s.(stealers := s.stealers[thread := Away]);
    QuietStealerStep(s, left, thread, Away);
    if s.top == t {
      TakeLeftmost(left);
      ReplayOne(Contents(s), Stolen(thread, taken));
    }
  }

  lemma TakeLeftmost(s: State)
    requires Inv(s) && s.top < End(s)
    ensures Inv(s.(top := s.top + 1))
    ensures Contents(s) != [] && Contents(s)[0] == s.heap[s.buffer].Load(s.top)
    ensures Contents(s.(top := s.top + 1)) == Contents(s)[1..]
  {
    var s' := s.(top := s.top + 1);
    LeftmostGone(s);
    forall other
      ensures StealerInv(s', other)
    {
      assert StealerInv(s, other);
    }
  }

  lemma LeftmostGone(s: State)
    requires WellShaped(s) && s.top < End(s)
    ensures Contents(s)[0] == s.heap[s.buffer].Load(s.top)
    ensures WellShaped(s.(top := s.top + 1)) && Contents(s.(top := s.top + 1)) == Contents(s)[1..]
  {
  }

  lemma OwnerStepRefines(s: State)
    requires Inv(s) && !s.owner.Resting?
    ensures Refines(s, OwnerMove)
  {
    InvIsDefined(s, OwnerMove);
    match s.owner
    case PushPublish(_, _) => PushPublishRefines(s);
    case GrowPublish(_, _, _, _, _) => PublishKeepsInv(s);
    case GrowStore(_, _, _, _, _, _, _) => GrowStoreKeepsInv(s);
    case PushStore(_, _, _) => PushStoreKeepsInv(s);
    case PopLoadTop(_, _) => PopLoadTopRefines(s);
    case PopRace(_, _, _) => PopRaceRefines(s);
    case PopLoadBuffer(_) => QuietPopStepRefines(s);
    case PopReserve(_, _) => QuietPopStepRefines(s);
    case PopLoadSlot(_, _, _) => QuietPopStepRefines(s);
    case PopRestore(_, _) => QuietPopStepRefines(s);
    case _ => PushReadKeepsInv(s);
  }

  // Every step of every thread, from any reachable state.
  lemma StepRefines(s: State, a: Action)
    requires Inv(s) && Enabled(s, a)
    ensures Refines(s, a)
  {
    InvIsDefined(s, a);
    match a
    case StartPush(_) => StartKeepsInv(s, a);
    case StartPop => StartKeepsInv(s, a);
    case StealerMove(thread) =>
      if s.StealerAt(thread).StealRace? {
        StealRaceRefines(s, thread);
      } else {
        StealerQuietRefines(s, thread);
      }
    case OwnerMove => OwnerStepRefines(s);
  }

  // ----- whole runs

  // A finite run from any state: each action is enabled and leads to the next state.
  ghost predicate IsPath(states: seq<State>, actions: seq<Action>) {
    && |states| == |actions| + 1
    && forall i :: 0 <= i < |actions| ==>
         Enabled(states[i], actions[i]) && Defined(states[i], actions[i]) && states[i + 1] == Next(states[i], actions[i])
  }

  function Effects(states: seq<State>, actions: seq<Action>): seq<Event>
    requires IsPath(states, actions)
    decreases |actions|
  {
    var n := |actions|;
    if n == 0 then []
    else Effects(states[..n], actions[..n - 1]) + Effect(states[n - 1], actions[n - 1])
  }

  function Returns(states: seq<State>, actions: seq<Action>): seq<Return>
    requires IsPath(states, actions)
    decreases |actions|
  {
    var n := |actions|;
    if n == 0 then []
    else Returns(states[..n], actions[..n - 1]) + Returned(states[n - 1], actions[n - 1])
  }

  // The owner's events, in order.
  function OwnerEvents(events: seq<Event>): seq<Event> {
    if events == [] then []
    else
      var last := events[|events| - 1];
      OwnerEvents(events[..|events| - 1]) + if last.Stolen? then [] else [last]
  }

  function StolenBy(thread: Thread, events: seq<Event>): seq<Handle> {
    if events == [] then []
    else
      var last := events[|events| - 1];
      StolenBy(thread, events[..|events| - 1]) + if last.Stolen? && last.thread == thread then [last.value] else []
  }

  // The events the owner's returned calls claim.
  function OwnerClaims(answers: seq<Return>): seq<Event> {
    if answers == [] then []
    else
      OwnerClaims(answers[..|answers| - 1]) +
      match answers[|answers| - 1]
      case PushReturns(v) => [Pushed(v)]
      case PopReturns(Some(v)) => [Popped(v)]
      case PopReturns(None) => [FoundEmpty]
      case StealReturns(_, _) => []
  }

  // The values a stealer's returned calls claim.
  function StealClaims(thread: Thread, answers: seq<Return>): seq<Handle> {
    if answers == [] then []
    else
      StealClaims(thread, answers[..|answers| - 1]) +
      match answers[|answers| - 1]
      case StealReturns(t, Some(v)) => if t == thread then [v] else []
      case _ => []
  }

  // An owner's operation that has taken effect and has not returned yet.
  function Pending(s: State): seq<Event>
    requires WellShaped(s) && OwnerInv(s)
  {
    match s.owner
    case PopLoadSlot(last, buf, t) => if t == last then [] else [Popped(s.heap[buf].Load(last))]
    case PopRestore(_, Some(v)) => [Popped(v)]
    case PopRestore(_, None) => [FoundEmpty]
    case _ => []
  }

  // What answers at a step is what has taken effect by then: an operation takes effect exactly
  // once, between its call and its return, with the result it answers.
  lemma StepReturns(s: State, a: Action)
    requires Inv(s) && Enabled(s, a)
    ensures Refines(s, a)
    ensures Pending(s) + OwnerEvents(Effect(s, a)) == OwnerClaims(Returned(s, a)) + Pending(Next(s, a))
    ensures forall thread :: StolenBy(thread, Effect(s, a)) == StealClaims(thread, Returned(s, a))
  {
    StepRefines(s, a);
    match a
    case StartPush(_) =>
    case StartPop =>
    case StealerMove(thread) => StealerStepReturns(s, thread);
    case OwnerMove => OwnerStepReturns(s);
  }

  lemma OwnerStepReturns(s: State)
    requires WellShaped(s) && OwnerInv(s) && Defined(s, OwnerMove)
    requires WellShaped(OwnerNext(s)) && OwnerInv(OwnerNext(s))
    ensures Pending(s) + OwnerEvents(Effect(s, OwnerMove)) == OwnerClaims(Returned(s, OwnerMove)) + Pending(OwnerNext(s))
    ensures forall thread :: StolenBy(thread, Effect(s, OwnerMove)) == StealClaims(thread, Returned(s, OwnerMove))
  {
    var effect, answer := Effect(s, OwnerMove), Returned(s, OwnerMove);
    assert |effect| == 1 ==> effect[..0] == [];
    assert |answer| == 1 ==> answer[..0] == [];
    match s.owner
    case PushPublish(_, _) =>
    case PopLoadTop(_, _) =>
    case PopLoadSlot(_, _, _) =>
    case PopRace(_, _, _) =>
    case PopRestore(_, None) =>
    case PopRestore(_, Some(_)) =>
    case _ => assert effect == [] && answer == [];
  }

  lemma StealerStepReturns(s: State, thread: Thread)
    requires WellShaped(s) && OwnerInv(s) && Defined(s, StealerMove(thread))
    requires WellShaped(StealerNext(s, thread)) && OwnerInv(StealerNext(s, thread))
    ensures Pending(StealerNext(s, thread)) == Pending(s)
    ensures OwnerEvents(Effect(s, StealerMove(thread))) == [] == OwnerClaims(Returned(s, StealerMove(thread)))
    ensures forall other :: StolenBy(other, Effect(s, StealerMove(thread)))
                         == StealClaims(other, Returned(s, StealerMove(thread)))
  {
  }

  lemma {:induction false} ReplayAppend(q: seq<Handle>, first: seq<Event>, second: seq<Event>)
    requires Replay(q, first).Some?
    ensures Replay(q, first + second) == Replay(Replay(q, first).value, second)
    decreases |first|
  {
    if first == [] {
      assert first + second == second;
    } else {
      assert (first + second)[1..] == first[1..] + second;
      ReplayAppend(Apply(q, first[0]).value, first[1..], second);
    }
  }

  lemma OwnerEventsAppend(events: seq<Event>, more: seq<Event>)
    requires |more| <= 1
    ensures OwnerEvents(events + more) == OwnerEvents(events) + OwnerEvents(more)
    ensures forall thread :: StolenBy(thread, events + more) == StolenBy(thread, events) + StolenBy(thread, more)
  {
    if |more| == 1 {
      assert (events + more)[..|events|] == events;
      assert more[..0] == [];
    } else {
      assert events + more == events;
    }
  }

  lemma OwnerClaimsAppend(answers: seq<Return>, more: seq<Return>)
    requires |more| <= 1
    ensures OwnerClaims(answers + more) == OwnerClaims(answers) + OwnerClaims(more)
    ensures forall thread :: StealClaims(thread, answers + more) == StealClaims(thread, answers) + StealClaims(thread, more)
  {
    if |more| == 1 {
      assert (answers + more)[..|answers|] == answers;
      assert more[..0] == [];
    } else {
      assert answers + more == answers;
    }
  }

  lemma AppendPending(claims: seq<Event>, pending: seq<Event>, event: seq<Event>, claim: seq<Event>, left: seq<Event>)
    requires pending + event == claim + left
    ensures claims + pending + event == claims + claim + left
  {
    assert claims + pending + event == claims + (pending + event);
  }

  // A history of events and answers that accounts for a state.
  ghost predicate Explains(events: seq<Event>, answers: seq<Return>, s: State) {
    && Inv(s)
    && Replay([], events) == Some(Contents(s))
    && OwnerEvents(events) == OwnerClaims(answers) + Pending(s)
    && forall thread :: StolenBy(thread, events) == StealClaims(thread, answers)
  }

  lemma ExplainsStep(events: seq<Event>, answers: seq<Return>, s: State, a: Action)
    requires Explains(events, answers, s) && Enabled(s, a)
    ensures Refines(s, a)
    ensures Explains(events + Effect(s, a), answers + Returned(s, a), Next(s, a))
  {
    StepReturns(s, a);
    ReplayAppend([], events, Effect(s, a));
    OwnerEventsAppend(events, Effect(s, a));
    OwnerClaimsAppend(answers, Returned(s, a));
    AppendPending(OwnerClaims(answers), Pending(s), OwnerEvents(Effect(s, a)),
                  OwnerClaims(Returned(s, a)), Pending(Next(s, a)));
  }

  lemma ExplainsInitial(s: State)
    requires Initial(s)
    ensures Explains([], [], s)
  {
    InitialInv(s);
  }

  lemma PathPrefix(states: seq<State>, actions: seq<Action>)
    requires IsPath(states, actions) && actions != []
    ensures IsPath(states[..|actions|], actions[..|actions| - 1])
  {
  }

  // The deque is linearizable. For every interleaving of the owner with any number of stealers,
  // the events replay on the sequential deque and end in its present contents; the owner's calls
  // return exactly their events, in order; and so do each stealer's successful calls.
  lemma {:induction false} Linearizable(states: seq<State>, actions: seq<Action>)
    requires IsPath(states, actions) && Initial(states[0])
    ensures Explains(Effects(states, actions), Returns(states, actions), states[|actions|])
    decreases |actions|
  {
    var n := |actions|;
    if n == 0 {
      ExplainsInitial(states[0]);
    } else {
      PathPrefix(states, actions);
      var before, a := states[n - 1], actions[n - 1];
      var events, answers := Effects(states[..n], actions[..n - 1]), Returns(states[..n], actions[..n - 1]);
      assert Explains(events, answers, before) by {
        Linearizable(states[..n], actions[..n - 1]);
      }
      ExplainsStep(events, answers, before, a);
    }
  }

  // The state is reached by some run, with these events, of which the owner's are `owned`.
  ghost predicate HasRun(s: State, events: seq<Event>, owned: seq<Event>) {
    && owned == OwnerEvents(events)
    && exists states: seq<State>, actions: seq<Action> ::
         IsPath(states, actions) && Initial(states[0]) && s == states[|actions|] && events == Effects(states, actions)
  }

  // `HasRun`, kept folded: the verifier looks inside only where `Unfold` is mentioned.
  ghost predicate Reached(s: State, events: seq<Event>, owned: seq<Event>) {
    forall n: nat {:trigger Unfold(n)} :: Unfold(n) ==> HasRun(s, events, owned)
  }

  lemma ReachedIsExplained(s: State, events: seq<Event>, owned: seq<Event>) returns (answers: seq<Return>)
    requires Reached(s, events, owned)
    ensures Explains(events, answers, s) && owned == OwnerEvents(events)
  {
    assert Unfold(0);
    var states: seq<State>, actions: seq<Action> :|
      IsPath(states, actions) && Initial(states[0]) && s == states[|actions|] && events == Effects(states, actions);
    Linearizable(states, actions);
    answers := Returns(states, actions);
  }

  // Events of one step that are the owner's.
  function Own(events: seq<Event>): seq<Event>
    requires |events| <= 1
  {
    if events == [] || events[0].Stolen? then [] else events
  }

  lemma ReachedStep(s: State, events: seq<Event>, owned: seq<Event>, a: Action)
    requires Reached(s, events, owned) && Enabled(s, a)
    ensures Defined(s, a) && |Effect(s, a)| <= 1
    ensures Reached(Next(s, a), events + Effect(s, a), owned + Own(Effect(s, a)))
  {
    assert Unfold(0);
    HasRunStep(s, events, owned, a);
  }

  lemma HasRunStep(s: State, events: seq<Event>, owned: seq<Event>, a: Action)
    requires HasRun(s, events, owned) && Enabled(s, a)
    ensures Defined(s, a) && |Effect(s, a)| <= 1
    ensures HasRun(Next(s, a), events + Effect(s, a), owned + Own(Effect(s, a)))
  {
    var states: seq<State>, actions: seq<Action> :|
      IsPath(states, actions) && Initial(states[0]) && s == states[|actions|] && events == Effects(states, actions);
    NeverStuck(states, actions, a);
    LongerPathIsRun(states, actions, a);
  }

  lemma LongerPathIsRun(states: seq<State>, actions: seq<Action>, a: Action)
    requires IsPath(states, actions) && Initial(states[0])
    requires var s := states[|actions|]; Enabled(s, a) && Defined(s, a) && |Effect(s, a)| <= 1
    ensures var s, events := states[|actions|], Effects(states, actions);
            HasRun(Next(s, a), events + Effect(s, a), OwnerEvents(events) + Own(Effect(s, a)))
  {
    var s, effect := states[|actions|], Effect(states[|actions|], a);
    PathExtends(states, actions, a);
    OwnerEventsAppend(Effects(states, actions), effect);
    if effect != [] {
      assert effect[..0] == [];
    }
    PathIsRun(states + [Next(s, a)], actions + [a]);
  }

  lemma PathIsRun(states: seq<State>, actions: seq<Action>)
    requires IsPath(states, actions) && Initial(states[0])
    ensures HasRun(states[|actions|], Effects(states, actions), OwnerEvents(Effects(states, actions)))
  {
  }

  lemma PathExtends(states: seq<State>, actions: seq<Action>, a: Action)
    requires IsPath(states, actions) && Enabled(states[|actions|], a) && Defined(states[|actions|], a)
    ensures IsPath(states + [Next(states[|actions|], a)], actions + [a])
    ensures Effects(states + [Next(states[|actions|], a)], actions + [a])
         == Effects(states, actions) + Effect(states[|actions|], a)
  {
  }

  lemma ReachedInitially(s: State)
    requires Initial(s)
    ensures Reached(s, [], [])
  {
    assert IsPath([s], []);
    assert Effects([s], []) == [];
    assert HasRun(s, [], []);
  }

  // ----- consequences

  function PushedValues(events: seq<Event>): multiset<Handle> {
    if events == [] then multiset{}
    else PushedValues(events[1..]) + if events[0].Pushed? then multiset{events[0].value} else multiset{}
  }

  function TakenValues(events: seq<Event>): multiset<Handle> {
    if events == [] then multiset{}
    else TakenValues(events[1..]) + if events[0].Popped? || events[0].Stolen? then multiset{events[0].value} else multiset{}
  }

  lemma ApplyConserves(q: seq<Handle>, e: Event)
    requires Apply(q, e).Some?
    ensures multiset(q) + PushedValues([e]) == TakenValues([e]) + multiset(Apply(q, e).value)
  {
    var q' := Apply(q, e).value;
    match e
    case Pushed(v) =>
    case Popped(v) => assert q == q' + [v];
    case Stolen(_, v) => assert q == [v] + q';
    case FoundEmpty =>
  }

  lemma {:induction false} ReplayConserves(q: seq<Handle>, events: seq<Event>)
    requires Replay(q, events).Some?
    ensures multiset(q) + PushedValues(events) == TakenValues(events) + multiset(Replay(q, events).value)
    decreases |events|
  {
    if events != [] {
      var q', first, rest := Apply(q, events[0]).value, [events[0]], events[1..];
      assert first[1..] == [];
      calc {
        multiset(q) + PushedValues(events);
        multiset(q) + PushedValues(first) + PushedValues(rest);
        { ApplyConserves(q, events[0]); }
        TakenValues(first) + (multiset(q') + PushedValues(rest));
        { ReplayConserves(q', rest); }
        TakenValues(first) + (TakenValues(rest) + multiset(Replay(q', rest).value));
        TakenValues(events) + multiset(Replay(q, events).value);
      }
    }
  }

  // No element is lost or delivered twice: as bags, what was pushed is what was popped or stolen
  // together with what is still in the deque.
  lemma EveryElementOnce(states: seq<State>, actions: seq<Action>)
    requires IsPath(states, actions) && Initial(states[0])
    ensures WellShaped(states[|actions|])
    ensures PushedValues(Effects(states, actions))
         == TakenValues(Effects(states, actions)) + multiset(Contents(states[|actions|]))
  {
    Linearizable(states, actions);
    ReplayConserves([], Effects(states, actions));
  }

  // The bounds the source relies on, in every reachable state: the live window never exceeds the
  // buffer, whose capacity is a power of two, and no two live indices share a slot.
  lemma WindowBounds(states: seq<State>, actions: seq<Action>)
    requires IsPath(states, actions) && Initial(states[0])
    ensures var s := states[|actions|];
            && s.buffer < |s.heap| && s.heap[s.buffer].Valid()
            && -1 <= s.bottom - s.top <= s.heap[s.buffer].Capacity()
            && IsPowerOfTwo(s.heap[s.buffer].Capacity())
            && (s.owner.Resting? ==> s.top <= s.bottom)
            && forall i: nat, j: nat :: s.top <= i < j < End(s) ==> s.heap[s.buffer].Slot(i) != s.heap[s.buffer].Slot(j)
  {
    Linearizable(states, actions);
    LiveSlotsDiffer(states[|actions|]);
  }

  lemma LiveSlotsDiffer(s: State)
    requires WellShaped(s)
    ensures forall i: nat, j: nat :: s.top <= i < j < End(s) ==> s.heap[s.buffer].Slot(i) != s.heap[s.buffer].Slot(j)
  {
    forall i: nat, j: nat | s.top <= i < j < End(s)
      ensures s.heap[s.buffer].Slot(i) != s.heap[s.buffer].Slot(j)
    {
      MaskIsInjectiveInWindow(i, j, s.heap[s.buffer].Capacity());
    }
  }

  // From a reachable state no access is out of range: any enabled action can be taken.
  lemma NeverStuck(states: seq<State>, actions: seq<Action>, a: Action)
    requires IsPath(states, actions) && Initial(states[0])
    requires Enabled(states[|actions|], a)
    ensures Defined(states[|actions|], a)
    ensures IsPath(states + [Next(states[|actions|], a)], actions + [a])
  {
    Linearizable(states, actions);
    InvIsDefined(states[|actions|], a);
  }

  // The invariant along a path, and what no step undoes: `top` never decreases, retired buffers
  // stay retired, and none of them is ever written again.
  ghost predicate Later(s: State, s': State) {
    && Inv(s) && Inv(s')
    && s.top <= s'.top
    && s.retired <= s'.retired
    && |s.heap| <= |s'.heap|
    && forall k :: 0 <= k < |s.retired| ==> s.retired[k] < |s.heap| && s'.heap[s.retired[k]] == s.heap[s.retired[k]]
  }

  lemma StepIsLater(s: State, a: Action)
    requires Inv(s) && Enabled(s, a)
    ensures Refines(s, a) && Later(s, Next(s, a))
  {
    StepRefines(s, a);
    StepLeavesRetired(s, a);
  }

  lemma StepLeavesRetired(s: State, a: Action)
    requires WellShaped(s) && OwnerInv(s) && RetiredInv(s) && Defined(s, a)
    ensures var s' := Next(s, a);
            && s.top <= s'.top && s.retired <= s'.retired && |s.heap| <= |s'.heap|
            && forall k :: 0 <= k < |s.retired| ==> s.retired[k] < |s.heap| && s'.heap[s.retired[k]] == s.heap[s.retired[k]]
  {
    if a.OwnerMove? {
      OwnerLeavesRetired(s);
    }
  }

  lemma OwnerLeavesRetired(s: State)
    requires WellShaped(s) && OwnerInv(s) && RetiredInv(s) && Defined(s, OwnerMove)
    ensures var s' := OwnerNext(s);
            && s.top <= s'.top && s.retired <= s'.retired && |s.heap| <= |s'.heap|
            && forall k :: 0 <= k < |s.retired| ==> s.retired[k] < |s.heap| && s'.heap[s.retired[k]] == s.heap[s.retired[k]]
  {
  }

  lemma {:induction false} RetiredBuffersAreFrozen(states: seq<State>, actions: seq<Action>, i: nat, j: nat)
    requires IsPath(states, actions) && Initial(states[0])
    requires i <= j <= |actions|
    ensures Later(states[i], states[j])
    decreases j
  {
    if i == j {
      Linearizable(states[..i + 1], actions[..i]);
    } else {
      RetiredBuffersAreFrozen(states, actions, i, j - 1);
      StepIsLater(states[j - 1], actions[j - 1]);
    }
  }

  // A thief finds nothing only if there is at most one element, and then the owner is in the
  // middle of a pop that is after that very element.
  lemma StealMissMeansNearlyEmpty(s: State, thread: Thread)
    requires Inv(s)
    requires s.StealerAt(thread).StealLoadBottom? && s.StealerAt(thread).t >= s.bottom
    ensures |Contents(s)| <= 1
    ensures |Contents(s)| == 1 ==> s.owner.PopLoadTop? || s.owner.PopLoadSlot? || s.owner.PopRace?
  {
    assert StealerInv(s, thread);
  }

  // ----- a lost compare-and-swap

  // The step is a compare-and-swap on `top` that succeeds.
  predicate Wins(s: State, a: Action) {
    match a
    case OwnerMove => s.owner.PopRace? && s.top == s.owner.t
    case StealerMove(thread) => s.StealerAt(thread).StealRace? && s.top == s.StealerAt(thread).t
    case _ => false
  }

  lemma TopMovesOnlyByWinning(s: State, a: Action)
    requires Defined(s, a)
    ensures Next(s, a).top == if Wins(s, a) then s.top + 1 else s.top
    ensures Wins(s, a) ==> |Effect(s, a)| == 1 && (Effect(s, a)[0].Popped? || Effect(s, a)[0].Stolen?)
  {
  }

  // The value of `top` a stealer read, if it has read one.
  function TopRead(stealer: Stealer): Option<nat> {
    match stealer
    case Away => None
    case StealLoadBottom(t) => Some(t)
    case StealLoadBuffer(t) => Some(t)
    case StealLoadSlot(t, _) => Some(t)
    case StealRace(t, _) => Some(t)
  }

  // If a stealer is about to lose its race, then since it read `top` another thread has taken an
  // element: `from` is the state in which the stealer read `top`.
  lemma {:induction false} LostRaceHasWinner(states: seq<State>, actions: seq<Action>, thread: Thread, from: nat)
      returns (k: nat)
    requires IsPath(states, actions) && Initial(states[0])
    requires from < |actions|
    requires states[from].StealerAt(thread).Away? && actions[from] == StealerMove(thread)
    requires forall i :: from < i <= |actions| ==> !states[i].StealerAt(thread).Away?
    requires states[|actions|].StealerAt(thread).StealRace?
    requires states[|actions|].top != states[|actions|].StealerAt(thread).t
    ensures from < k < |actions| && actions[k] != StealerMove(thread) && Wins(states[k], actions[k])
  {
    var read := states[from].top;
    k := from + 1;
    assert states[k] == Next(states[from], actions[from]);
    while !Wins(states[k], actions[k])
      invariant from < k < |actions|
      decreases |actions| - k
      invariant states[k].top == read && TopRead(states[k].StealerAt(thread)) == Some(read)
    {
      assert states[k + 1] == Next(states[k], actions[k]);
      TopMovesOnlyByWinning(states[k], actions[k]);
      ReadIsKept(states[k], actions[k], thread);
      k := k + 1;
    }
    assert actions[k] != StealerMove(thread) by {
      assert states[k + 1] == Next(states[k], actions[k]);
    }
  }

  lemma ReadIsKept(s: State, a: Action, thread: Thread)
    requires Defined(s, a)
    requires !s.StealerAt(thread).Away? && !Next(s, a).StealerAt(thread).Away?
    ensures TopRead(Next(s, a).StealerAt(thread)) == TopRead(s.StealerAt(thread))
  {
  }

  // The owner's race is for the last element it read `top` for.
  predicate Racing(owner: Owner, read: nat) {
    (owner.PopLoadSlot? || owner.PopRace?) && owner.t == read
  }

  lemma RaceIsKept(s: State, a: Action, read: nat)
    requires Enabled(s, a) && Defined(s, a) && Racing(s.owner, read)
    requires Next(s, a).owner.PopLoadSlot? || Next(s, a).owner.PopRace?
    ensures Racing(Next(s, a).owner, read) && (Wins(s, a) ==> a.StealerMove?)
  {
  }

  // If the owner is about to lose its race for the last element, then since it read `top` a thief
  // has taken one: `from` is the state in which the owner read `top`.
  lemma LostPopHasThief(states: seq<State>, actions: seq<Action>, from: nat) returns (k: nat)
    requires IsPath(states, actions) && Initial(states[0])
    requires from < |actions| && states[from].owner.PopLoadTop? && actions[from] == OwnerMove
    requires forall i :: from < i <= |actions| ==> states[i].owner.PopLoadSlot? || states[i].owner.PopRace?
    requires states[|actions|].owner.PopRace? && states[|actions|].top != states[|actions|].owner.t
    ensures from < k < |actions| && actions[k].StealerMove? && Wins(states[k], actions[k])
  {
    var read := states[from].top;
    k := from + 1;
    assert states[k] == Next(states[from], actions[from]);
    while !Wins(states[k], actions[k])
      invariant from < k < |actions|
      invariant states[k].top == read && Racing(states[k].owner, read)
      decreases |actions| - k
    {
      assert states[k + 1] == Next(states[k], actions[k]);
      TopMovesOnlyByWinning(states[k], actions[k]);
      RaceIsKept(states[k], actions[k], read);
      k := k + 1;
    }
    assert states[k + 1] == Next(states[k], actions[k]);
    RaceIsKept(states[k], actions[k], read);
  }
}
