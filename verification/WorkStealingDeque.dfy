/**
  The deque as the source has it: an object whose `push`, `pop` and `steal` read and write
  shared memory one access at a time, with other threads running between any two accesses.

  `model` records where every thread stands. Each access is accounted for by one step of the
  state machine of ChaseLevDeque, so what is proved there of every interleaving holds of these
  methods. `history` lists what has happened to the abstract deque.
*/
module WorkStealingDeques {
  import opened Collections
  import opened CircularBuffers
  import opened ChaseLevDeque

  // The elements thieves took.
  function StolenValues(events: seq<Event>): seq<Handle> {
    if events == [] then []
    else (if events[0].Stolen? then [events[0].value] else []) + StolenValues(events[1..])
  }

  // The owner's only event was this one; what thieves took came off the left.
  lemma {:induction false} WithThievesOnly(q: seq<Handle>, events: seq<Event>)
    requires Replay(q, events).Some? && OwnerEvents(events) == []
    ensures q == StolenValues(events) + Replay(q, events).value
    decreases |events|
  {
    if events != [] {
      OwnerEventsCons(events);
      WithThievesOnly(Apply(q, events[0]).value, events[1..]);
    }
  }

  lemma {:induction false} OwnerEventsCons(events: seq<Event>)
    requires events != []
    ensures OwnerEvents(events) == (if events[0].Stolen? then [] else [events[0]]) + OwnerEvents(events[1..])
    decreases |events|
  {
    var n := |events|;
    if n > 1 {
      OwnerEventsCons(events[..n - 1]);
      assert events[..n - 1][1..] == events[1..][..n - 2];
    } else {
      assert events[..0] == [] == events[1..];
    }
  }

  lemma StolenFirst(q: seq<Handle>, events: seq<Event>)
    requires events != [] && events[0].Stolen? && Apply(q, events[0]).Some?
    ensures q == [events[0].value] + Apply(q, events[0]).value
    ensures StolenValues(events) == [events[0].value] + StolenValues(events[1..])
  {
  }

  lemma {:induction false} WithOnePush(q: seq<Handle>, events: seq<Event>, value: Handle)
    requires Replay(q, events).Some? && OwnerEvents(events) == [Pushed(value)]
    ensures q + [value] == StolenValues(events) + Replay(q, events).value
    decreases |events|
  {
    OwnerEventsCons(events);
    var q', rest := Apply(q, events[0]).value, events[1..];
    if events[0].Stolen? {
      WithOnePush(q', rest, value);
      StolenFirst(q, events);
      Associative([events[0].value], q', [value]);
      Associative([events[0].value], StolenValues(rest), Replay(q', rest).value);
    } else {
      OnlyEvent(events[0], OwnerEvents(rest), Pushed(value));
      WithThievesOnly(q', rest);
      assert StolenValues(events) == StolenValues(rest);
    }
  }

  lemma OnlyEvent(first: Event, rest: seq<Event>, only: Event)
    requires [first] + rest == [only]
    ensures first == only && rest == []
  {
    assert ([first] + rest)[0] == first;
    assert |[first] + rest| == 1 + |rest|;
  }

  lemma {:induction false} WithOnePop(q: seq<Handle>, events: seq<Event>, result: Option<Handle>)
    requires Replay(q, events).Some?
    requires OwnerEvents(events) == [PopEvent(result)]
    ensures q == StolenValues(events) + Replay(q, events).value + Taken(result)
    ensures result.None? ==> Replay(q, events).value == []
    decreases |events|
  {
    OwnerEventsCons(events);
    var q', rest := Apply(q, events[0]).value, events[1..];
    if events[0].Stolen? {
      WithOnePop(q', rest, result);
      StolenFirst(q, events);
      Associative([events[0].value], StolenValues(rest), Replay(q', rest).value);
      Associative([events[0].value], StolenValues(rest) + Replay(q', rest).value, Taken(result));
    } else {
      OnlyEvent(events[0], OwnerEvents(rest), PopEvent(result));
      WithPopFirst(q, events, result);
    }
  }

  lemma WithPopFirst(q: seq<Handle>, events: seq<Event>, result: Option<Handle>)
    requires Replay(q, events).Some? && events != []
    requires events[0] == PopEvent(result) && OwnerEvents(events[1..]) == []
    ensures q == StolenValues(events) + Replay(q, events).value + Taken(result)
    ensures result.None? ==> Replay(q, events).value == []
  {
    var q', rest := Apply(q, events[0]).value, events[1..];
    PopTakesLast(q, result);
    WithThievesOnly(q', rest);
    assert StolenValues(events) == StolenValues(rest);
    assert Replay(q, events) == Replay(q', rest);
  }

  lemma PopTakesLast(q: seq<Handle>, result: Option<Handle>)
    requires Apply(q, PopEvent(result)).Some?
    ensures q == Apply(q, PopEvent(result)).value + Taken(result)
    ensures result.None? ==> q == []
  {
  }

  function Taken(result: Option<Handle>): seq<Handle> {
    if result.Some? then [result.value] else []
  }

  function PopEvent(result: Option<Handle>): Event {
    if result.Some? then Popped(result.value) else FoundEmpty
  }

  ghost function ElementsOf(s: State): seq<Handle> {
    if WellShaped(s) then Contents(s) else []
  }

  lemma {:induction false} OwnerEventsConcat(first: seq<Event>, second: seq<Event>)
    ensures OwnerEvents(first + second) == OwnerEvents(first) + OwnerEvents(second)
    decreases |second|
  {
    if second == [] {
      assert first + second == first;
    } else {
      var n := |second| - 1;
      OwnerEventsConcat(first, second[..n]);
      assert (first + second)[..|first + second| - 1] == first + second[..n];
    }
  }

  // Between two reached states the owner had one event: what that says about the elements.
  lemma OwnerCall(s: State, events: seq<Event>, owned: seq<Event>, s': State, events': seq<Event>, owned': seq<Event>, e: Event)
    requires Reached(s, events, owned) && Reached(s', events', owned')
    requires events <= events' && owned' == owned + [e] && !e.Stolen?
    ensures var stolen := StolenValues(events'[|events|..]);
            match e
            case Pushed(value) => ElementsOf(s) + [value] == stolen + ElementsOf(s')
            case Popped(value) => ElementsOf(s) == stolen + ElementsOf(s') + [value]
            case FoundEmpty => ElementsOf(s) == stolen && ElementsOf(s') == []
            case Stolen(_, _) => true
  {
    var _ := ReachedIsExplained(s, events, owned);
    var _ := ReachedIsExplained(s', events', owned');
    var since := events'[|events|..];
    assert events' == events + since;
    OwnerEventsConcat(events, since);
    assert OwnerEvents(since) == [e] by {
      assert owned + OwnerEvents(since) == owned + [e];
      assert (owned + OwnerEvents(since))[|owned|..] == (owned + [e])[|owned|..];
    }
    ReplayAppend([], events, since);
    match e
    case Pushed(value) => WithOnePush(Contents(s), since, value);
    case Popped(value) => WithOnePop(Contents(s), since, Some(value));
    case FoundEmpty => WithOnePop(Contents(s), since, None);
  }

  // What the current buffer holds at an index.
  ghost function ElementAt(s: State, index: int): Handle {
    if 0 <= index && InHeap(s, s.buffer) then s.heap[s.buffer].Load(index) else NULL_HANDLE
  }

  ghost function ArraysOf(heap: seq<CircularBuffer>): set<object> {
    set k | 0 <= k < |heap| :: heap[k].data
  }

  // The buffers, with what they hold.
  ghost predicate Holds(heap: seq<CircularBuffer>, view: seq<Buffer>)
    reads ArraysOf(heap)
  {
    && |heap| == |view|
    && (forall k :: 0 <= k < |heap| ==> heap[k].Valid() && heap[k].View() == view[k])
    && (forall j, k :: 0 <= j < k < |heap| ==> heap[j].data != heap[k].data)
  }

  ghost predicate Look(n: nat) { true }

  // `Holds`, kept folded: the verifier looks inside only where `Look` is mentioned.
  ghost predicate Memory(heap: seq<CircularBuffer>, view: seq<Buffer>)
    reads ArraysOf(heap)
  {
    forall n: nat {:trigger Look(n)} :: Look(n) ==> Holds(heap, view)
  }

  lemma MemoryGrows(heap: seq<CircularBuffer>, view: seq<Buffer>, grown: CircularBuffer)
    requires Memory(heap, view) && grown.Valid()
    requires forall k :: 0 <= k < |heap| ==> heap[k].data != grown.data
    ensures Memory(heap + [grown], view + [grown.View()])
  {
  }

  class WorkStealingDeque {
    var top: nat
    var bottom: int
    var buffer: CircularBuffer
    var retired: seq<CircularBuffer>

    var heap: seq<CircularBuffer>   // every buffer ever allocated, oldest first
    var model: State
    ghost var history: seq<Event>   // what has happened to the abstract deque,
    ghost var owned: seq<Event>     // and the part of it that the owner did

    ghost function Arrays(): set<object>
      reads this
    {
      ArraysOf(heap)
    }

    // The fields are the shared memory of the model.
    ghost predicate Mirrors()
      reads this, Arrays()
    {
      && top == model.top && bottom == model.bottom
      && |heap| == |model.heap| && Memory(heap, model.heap)
      && model.buffer < |heap|
      && buffer == heap[model.buffer]
      && retired == heap[..model.buffer]
    }

    ghost predicate Valid()
      reads this, Arrays()
    {
      Mirrors() && Reached(model, history, owned)
    }

    constructor (capacity: nat)
      requires IsPowerOfTwo(capacity)
      ensures Valid() && fresh(Arrays())
      ensures model.owner.Resting? && history == []
    {
      var first := new CircularBuffer(capacity);
      top, bottom, buffer, retired := 0, 0, first, [];
      heap := [first];
      model := State(0, 0, 0, [Fresh(capacity)], [], Resting, map[]);
      history, owned := [], [];
      new;
      ReachedInitially(model);
    }

    // ----- one access of a stealer

    method StealerStep(thread: Thread)
      requires Valid()
      modifies this`top, this`model, this`history, this`owned
      ensures Valid() && old(top) <= top
      ensures model == old(model).(top := top, stealers := model.stealers)
      ensures Defined(old(model), StealerMove(thread)) && model == StealerNext(old(model), thread)
      ensures old(history) <= history && owned == old(owned)
      ensures forall other :: other != thread ==>
                model.StealerAt(other) == old(model.StealerAt(other)) && NotBy(other, history[|old(history)|..])
    {
      ReachedStep(model, history, owned, StealerMove(thread));
      StealerStepFrame(model, thread);
      history := history + Effect(model, StealerMove(thread));
      model := StealerNext(model, thread);
      top := model.top;
    }

    // Any number of steps of any stealers.
    method StealersRun()
      requires Valid()
      modifies this`top, this`model, this`history, this`owned
      ensures Valid() && old(top) <= top
      ensures model == old(model).(top := top, stealers := model.stealers)
      ensures old(history) <= history && owned == old(owned)
    {
      var steps: nat := *;
      while steps > 0
        invariant Valid() && old(top) <= top
        invariant model == old(model).(top := top, stealers := model.stealers)
        invariant old(history) <= history && owned == old(owned)
      {
        var thread: Thread := *;
        StealerStep(thread);
        steps := steps - 1;
      }
    }

    // ----- the owner's accesses; thieves may run after each of them

    // Account for the access just made by the step of the model that it is.
    method Account(a: Action)
      requires Reached(model, history, owned) && Enabled(model, a)
      modifies this`model, this`history, this`owned
      ensures Reached(model, history, owned)
      ensures Defined(old(model), a) && model == Next(old(model), a)
      ensures history == old(history) + Effect(old(model), a)
      ensures |Effect(old(model), a)| <= 1 && owned == old(owned) + Own(Effect(old(model), a))
    {
      ReachedStep(model, history, owned, a);
      history, owned := history + Effect(model, a), owned + Own(Effect(model, a));
      model := Next(model, a);
    }

    method PushReadBottom(value: Handle) returns (b: nat)
      requires Valid() && model.owner.Resting?
      modifies this`top, this`model, this`history, this`owned
      ensures Valid() && model.owner == PushLoadTop(value, b) && b == bottom
      ensures old(history) <= history && owned == old(owned)
    {
      RestingBottom(model, history, owned);
      b := bottom;
      Account(StartPush(value));
      StealersRun();
    }

    method PushReadTop(value: Handle, b: nat) returns (t: nat)
      requires Valid() && model.owner == PushLoadTop(value, b)
      modifies this`top, this`model, this`history, this`owned
      ensures Valid() && model.owner == PushLoadBuffer(value, b, t)
      ensures old(history) <= history && owned == old(owned)
    {
      t := top;
      Account(OwnerMove);
      StealersRun();
    }

    // The buffer just read is large enough.
    method PushKeepBuffer(value: Handle, b: nat, t: nat, buf: CircularBuffer)
      requires Valid() && model.owner == PushLoadBuffer(value, b, t)
      requires buf == buffer && b - t < buf.mask + 1
      modifies this`top, this`model, this`history, this`owned
      ensures Valid() && model.owner == PushStore(value, b, model.buffer)
      ensures old(history) <= history && owned == old(owned)
    {
      assert Look(0) && buf.View() == model.heap[model.buffer];
      Account(OwnerMove);
      StealersRun();
    }

    method PushStoreSlot(value: Handle, b: nat)
      requires Valid() && model.owner == PushStore(value, b, model.buffer)
      modifies this`top, this`model, this`history, this`owned, buffer.data
      ensures Valid() && model.owner == PushPublish(value, b)
      ensures old(history) <= history && owned == old(owned)
    {
      assert Look(0);
      buffer.Store(b, value);
      Account(OwnerMove);
      StealersRun();
    }

    method PushWriteBottom(value: Handle, b: nat)
      requires Valid() && model.owner == PushPublish(value, b)
      modifies this`top, this`bottom, this`model, this`history, this`owned
      ensures Valid() && model.owner.Resting?
      ensures old(history) <= history && owned == old(owned) + [Pushed(value)]
    {
      bottom := b + 1;
      Account(OwnerMove);
      StealersRun();
    }

    // ----- growing: allocate, copy slot by slot, retire, publish

    method GrowAllocate(value: Handle, b: nat, t: nat) returns (grown: CircularBuffer)
      requires Valid() && model.owner == PushLoadBuffer(value, b, t)
      requires t < b && b - t >= buffer.mask + 1
      modifies this`top, this`model, this`history, this`owned, this`heap
      ensures Valid() && model.owner == GrowLoad(value, b, t, model.buffer, |heap| - 1, t)
      ensures fresh(grown) && fresh(grown.data) && heap == old(heap) + [grown]
      ensures old(history) <= history && owned == old(owned)
    {
      assert Look(0) && buffer.View() == model.heap[model.buffer];
      grown := new CircularBuffer(2 * (buffer.mask + 1));
      MemoryGrows(heap, model.heap, grown);
      heap := heap + [grown];
      Account(OwnerMove);
      StealersRun();
    }

    method GrowReadSlot(value: Handle, b: nat, t: nat, grown: nat, i: nat) returns (copied: Handle)
      requires Valid() && model.owner == GrowLoad(value, b, t, model.buffer, grown, i)
      modifies this`top, this`model, this`history, this`owned
      ensures Valid() && model.owner == GrowStore(value, b, t, model.buffer, grown, i, copied)
      ensures old(history) <= history && owned == old(owned)
    {
      assert Look(0) && buffer.View() == model.heap[model.buffer];
      copied := buffer.Load(i);
      Account(OwnerMove);
      StealersRun();
    }

    method GrowWriteSlot(value: Handle, b: nat, t: nat, grown: nat, i: nat, copied: Handle)
      requires Valid() && model.owner == GrowStore(value, b, t, model.buffer, grown, i, copied)
      requires grown < |heap|
      modifies this`top, this`model, this`history, this`owned, heap[grown].data
      ensures Valid() && model.owner == if i + 1 < b then GrowLoad(value, b, t, model.buffer, grown, i + 1)
                                        else GrowPublish(value, b, t, model.buffer, grown)
      ensures old(history) <= history && owned == old(owned)
    {
      assert Look(0);
      heap[grown].Store(i, copied);
      Account(OwnerMove);
      StealersRun();
    }

    method GrowCopySlot(value: Handle, b: nat, t: nat, grown: nat, i: nat)
      requires Valid() && model.owner == GrowLoad(value, b, t, model.buffer, grown, i)
      requires grown < |heap|
      modifies this`top, this`model, this`history, this`owned, heap[grown].data
      ensures Valid() && model.owner == if i + 1 < b then GrowLoad(value, b, t, model.buffer, grown, i + 1)
                                        else GrowPublish(value, b, t, model.buffer, grown)
      ensures old(history) <= history && owned == old(owned)
    {
      var copied := GrowReadSlot(value, b, t, grown, i);
      GrowWriteSlot(value, b, t, grown, i, copied);
    }

    method GrowWriteBuffer(value: Handle, b: nat, t: nat, grown: nat)
      requires Valid() && model.owner == GrowPublish(value, b, t, model.buffer, grown)
      requires grown == |heap| - 1
      modifies this`top, this`model, this`history, this`owned, this`buffer, this`retired
      ensures Valid() && model.owner == PushStore(value, b, model.buffer) && buffer == heap[grown]
      ensures old(history) <= history && owned == old(owned)
    {
      GrownIsYoungest(model, history, owned);
      retired := retired + [buffer];
      buffer := heap[grown];
      Account(OwnerMove);
      StealersRun();
    }

    // ----- pop's accesses

    method PopReadBottom() returns (last: int)
      requires Valid() && model.owner.Resting?
      modifies this`top, this`model, this`history, this`owned
      ensures Valid() && model.owner == PopLoadBuffer(last)
      ensures old(history) <= history && owned == old(owned)
    {
      last := bottom - 1;
      Account(StartPop);
      StealersRun();
    }

    method PopReadBuffer(last: int) returns (buf: CircularBuffer)
      requires Valid() && model.owner == PopLoadBuffer(last)
      modifies this`top, this`model, this`history, this`owned
      ensures Valid() && model.owner == PopReserve(last, model.buffer) && buf == buffer
      ensures old(history) <= history && owned == old(owned)
    {
      buf := buffer;
      Account(OwnerMove);
      StealersRun();
    }

    method PopWriteBottom(last: int)
      requires Valid() && model.owner == PopReserve(last, model.buffer)
      modifies this`top, this`bottom, this`model, this`history, this`owned
      ensures Valid() && model.owner == PopLoadTop(last, model.buffer)
      ensures old(history) <= history && owned == old(owned)
    {
      bottom := last;
      Account(OwnerMove);
      StealersRun();
    }

    // With more than one element left the pop takes effect here, with the value its slot holds.
    method PopReadTop(last: int) returns (t: nat)
      requires Valid() && model.owner == PopLoadTop(last, model.buffer)
      modifies this`top, this`model, this`history, this`owned
      ensures Valid()
      ensures model.owner == if t <= last then PopLoadSlot(last, model.buffer, t) else PopRestore(last, None)
      ensures old(history) <= history
      ensures owned == old(owned) +
              if t < last then [Popped(ElementAt(model, last))] else if t == last then [] else [FoundEmpty]
    {
      t := top;
      Account(OwnerMove);
      StealersRun();
    }

    method PopReadSlot(last: int, buf: CircularBuffer, t: nat) returns (value: Handle)
      requires Valid() && model.owner == PopLoadSlot(last, model.buffer, t)
      requires t <= last && buf == buffer
      modifies this`top, this`model, this`history, this`owned
      ensures Valid()
      ensures value == old(ElementAt(model, last))
      ensures model.owner == if t == last then PopRace(last, t, value) else Resting
      ensures old(history) <= history && owned == old(owned)
    {
      assert Look(0) && buf.View() == model.heap[model.buffer];
      value := buf.Load(last);
      Account(OwnerMove);
      StealersRun();
    }

    // compare_exchange on `top`, from `t` to `t + 1`.
    method PopCompareExchange(last: int, t: nat, value: Handle) returns (won: bool)
      requires Valid() && model.owner == PopRace(last, t, value)
      modifies this`top, this`model, this`history, this`owned
      ensures Valid() && model.owner == PopRestore(last, if won then Some(value) else None)
      ensures old(history) <= history
      ensures owned == old(owned) + [if won then Popped(value) else FoundEmpty]
    {
      won := top == t;
      if won {
        top := t + 1;
      }
      Account(OwnerMove);
      StealersRun();
    }

    method PopRestoreBottom(last: int, result: Option<Handle>)
      requires Valid() && model.owner == PopRestore(last, result)
      modifies this`top, this`bottom, this`model, this`history, this`owned
      ensures Valid() && model.owner.Resting?
      ensures old(history) <= history && owned == old(owned)
    {
      bottom := last + 1;
      Account(OwnerMove);
      StealersRun();
    }

    // ----- the operations

    // The elements in the deque, oldest first.
    ghost function Elements(): seq<Handle>
      reads this
    {
      ElementsOf(model)
    }

    // What the owner's call did, whatever thieves did meanwhile: they only took from the left.
    method Push(value: Handle)
      requires Valid() && model.owner.Resting?
      modifies this, Arrays()
      ensures Valid() && model.owner.Resting?
      ensures old(heap) <= heap && forall k :: |old(heap)| <= k < |heap| ==> fresh(heap[k].data)
      ensures old(history) <= history && owned == old(owned) + [Pushed(value)]
      ensures old(Elements()) + [value] == StolenValues(history[|old(history)|..]) + Elements()
    {
      ghost var s, h, o := model, history, owned;
      var b := PushReadBottom(value);
      var t := PushReadTop(value, b);
      var buf := buffer;
      if b - t >= buf.mask + 1 {
        Grow(value, b, t);
      } else {
        PushKeepBuffer(value, b, t, buf);
      }
      PushCommit(value, b);
      OwnerCall(s, h, o, model, history, owned, Pushed(value));
    }

    method PushCommit(value: Handle, b: nat)
      requires Valid() && model.owner == PushStore(value, b, model.buffer)
      modifies this`top, this`bottom, this`model, this`history, this`owned, buffer.data
      ensures Valid() && model.owner.Resting?
      ensures old(history) <= history && owned == old(owned) + [Pushed(value)]
    {
      PushStoreSlot(value, b);
      PushWriteBottom(value, b);
    }

    method Grow(value: Handle, b: nat, t: nat)
      requires Valid() && model.owner == PushLoadBuffer(value, b, t)
      requires b - t >= buffer.mask + 1
      modifies this, Arrays()
      ensures Valid() && model.owner == PushStore(value, b, model.buffer)
      ensures old(heap) <= heap && |heap| == |old(heap)| + 1 && fresh(heap[|heap| - 1].data)
      ensures old(history) <= history && owned == old(owned)
    {
      var grown := GrowAllocate(value, b, t);
      var i := t;
      while i < b
        invariant Valid() && heap == old(heap) + [grown] && fresh(grown.data)
        invariant t <= i <= b
        invariant model.owner == if i < b then GrowLoad(value, b, t, model.buffer, |heap| - 1, i)
                                 else GrowPublish(value, b, t, model.buffer, |heap| - 1)
        invariant old(history) <= history && owned == old(owned)
      {
        GrowCopySlot(value, b, t, |heap| - 1, i);
        i := i + 1;
      }
      GrowWriteBuffer(value, b, t, |heap| - 1);
    }

    method Pop() returns (result: Option<Handle>)
      requires Valid() && model.owner.Resting?
      modifies this`top, this`bottom, this`model, this`history, this`owned
      ensures Valid() && model.owner.Resting?
      ensures old(history) <= history && owned == old(owned) + [PopEvent(result)]
      ensures old(Elements()) == StolenValues(history[|old(history)|..]) + Elements() +
              Taken(result)
      ensures result.None? ==> Elements() == []
    {
      ghost var s, h, o := model, history, owned;
      var last := PopReadBottom();
      var buf := PopReadBuffer(last);
      PopWriteBottom(last);
      var t := PopReadTop(last);
      if t <= last {
        result := PopTake(last, buf, t);
      } else {
        PopRestoreBottom(last, None);
        result := None;
      }
      OwnerCall(s, h, o, model, history, owned, PopEvent(result));
    }

    // The element at `last` is there: take it, racing thieves for it if it is the only one.
    method PopTake(last: int, buf: CircularBuffer, t: nat) returns (result: Option<Handle>)
      requires Valid() && model.owner == PopLoadSlot(last, model.buffer, t)
      requires t <= last && buf == buffer
      modifies this`top, this`bottom, this`model, this`history, this`owned
      ensures Valid() && model.owner.Resting?
      ensures old(history) <= history
      ensures t < last ==> owned == old(owned) && result == Some(old(ElementAt(model, last)))
      ensures t == last ==> owned == old(owned) + [PopEvent(result)]
    {
      var value := PopReadSlot(last, buf, t);
      if t == last {
        var won := PopCompareExchange(last, t, value);
        if !won {
          PopRestoreBottom(last, None);
          return None;
        }
        PopRestoreBottom(last, Some(value));
      }
      return Some(value);
    }

    // ----- stealing: between its accesses the owner and the other stealers run

    // One step of the owner, whatever it is doing, with what that does to the shared memory.
    method OwnerActs(a: Action)
      requires Valid() && Enabled(model, a) && !a.StealerMove?
      modifies this, Arrays()
      ensures Valid() && old(heap) <= heap
      ensures forall k :: |old(heap)| <= k < |heap| ==> fresh(heap[k].data)
      ensures Defined(old(model), a) && model == Next(old(model), a) && model.stealers == old(model.stealers)
      ensures old(history) <= history && NoSteals(history[|old(history)|..])
    {
      OwnerPlans(a);
      MemoryFollows();
    }

    method OwnerPlans(a: Action)
      requires Valid() && Enabled(model, a) && !a.StealerMove?
      modifies this`model, this`history, this`owned
      ensures Reached(model, history, owned)
      ensures Defined(old(model), a) && model == Next(old(model), a) && model.stealers == old(model.stealers)
      ensures old(history) <= history && NoSteals(history[|old(history)|..])
      ensures |heap| <= |model.heap| <= |heap| + 1 && SameShape(heap, model.heap[..|heap|])
    {
      ReachedStep(model, history, owned, a);
      OwnerStepShape(model, a);
      MemoryShape(heap, model.heap);
      history, owned := history + Effect(model, a), owned + Own(Effect(model, a));
      model := Next(model, a);
    }

    method MemoryFollows()
      requires Reached(model, history, owned)
      requires |heap| <= |model.heap| <= |heap| + 1 && SameShape(heap, model.heap[..|heap|])
      modifies this`top, this`bottom, this`buffer, this`retired, this`heap, Arrays()
      ensures Valid() && old(heap) <= heap
      ensures forall k :: |old(heap)| <= k < |heap| ==> fresh(heap[k].data)
    {
      ReachedBuffers(model, history, owned);
      Allocate();
      Overwrite();
      top, bottom, buffer, retired := model.top, model.bottom, heap[model.buffer], heap[..model.buffer];
    }

    // Allocate the youngest buffer, if it is new.
    method Allocate()
      requires |heap| <= |model.heap| <= |heap| + 1
      requires forall k :: 0 <= k < |model.heap| ==> model.heap[k].Valid()
      requires SameShape(heap, model.heap[..|heap|])
      modifies this`heap
      ensures old(heap) <= heap && SameShape(heap, model.heap)
      ensures forall k :: |old(heap)| <= k < |heap| ==> fresh(heap[k].data)
    {
      if |heap| < |model.heap| {
        var grown := new CircularBuffer(model.heap[|heap|].mask + 1);
        heap := heap + [grown];
      }
    }

    // Make the buffers hold what the model says they hold.
    method Overwrite()
      requires SameShape(heap, model.heap)
      requires forall k :: 0 <= k < |model.heap| ==> model.heap[k].Valid()
      modifies Arrays()
      ensures Memory(heap, model.heap)
    {
      var k := 0;
      while k < |heap|
        invariant 0 <= k <= |heap|
        invariant forall j :: 0 <= j < k ==> heap[j].data[..] == model.heap[j].data
      {
        var data := heap[k].data;
        forall i | 0 <= i < data.Length {
          data[i] := model.heap[k].data[i];
        }
        k := k + 1;
      }
      assert Holds(heap, model.heap);
    }

    // Any number of steps of any threads but one: `others` is what they did.
    method OthersRun(thread: Thread) returns (ghost others: seq<Move>)
      requires Valid()
      modifies this, Arrays()
      ensures Valid() && model.StealerAt(thread) == old(model.StealerAt(thread))
      ensures old(heap) <= heap && forall k :: |old(heap)| <= k < |heap| ==> fresh(heap[k].data)
      ensures old(history) <= history && StolenBy(thread, history) == old(StolenBy(thread, history))
      ensures Runs(old(model), others, model) && OfOthers(thread, others)
    {
      var steps: nat := *;
      others := [];
      while steps > 0
        invariant Valid() && model.StealerAt(thread) == old(model.StealerAt(thread))
        invariant old(heap) <= heap && forall k :: |old(heap)| <= k < |heap| ==> fresh(heap[k].data)
        invariant old(history) <= history && StolenBy(thread, history) == old(StolenBy(thread, history))
        invariant Runs(old(model), others, model) && OfOthers(thread, others)
      {
        ghost var s := model;
        ghost var one := OneOtherRuns(thread);
        RunsJoin(old(model), others, s, one, model);
        others := others + one;
        steps := steps - 1;
      }
    }

    method OneOtherRuns(thread: Thread) returns (ghost one: seq<Move>)
      requires Valid()
      modifies this, Arrays()
      ensures Valid() && model.StealerAt(thread) == old(model.StealerAt(thread))
      ensures old(heap) <= heap && forall k :: |old(heap)| <= k < |heap| ==> fresh(heap[k].data)
      ensures old(history) <= history && StolenBy(thread, history) == old(StolenBy(thread, history))
      ensures Runs(old(model), one, model) && OfOthers(thread, one)
    {
      ghost var before, s := history, model;
      var other: Thread := *;
      var a: Action := *;
      one := [];
      if other != thread {
        StealerStep(other);
        one := [Move(s, StealerMove(other))];
      } else if Enabled(model, a) && !a.StealerMove? {
        OwnerActs(a);
        one := [Move(s, a)];
      }
      NotByAppend(thread, before, history[|before|..]);
      assert before + history[|before|..] == history;
    }

    method StealAccount(thread: Thread)
      requires Reached(model, history, owned)
      modifies this`model, this`history, this`owned
      ensures Reached(model, history, owned)
      ensures Defined(old(model), StealerMove(thread)) && model == StealerNext(old(model), thread)
      ensures history == old(history) + Effect(old(model), StealerMove(thread))
      ensures StolenBy(thread, history) == old(StolenBy(thread, history)) +
              if StealWins(old(model), thread) then [old(model).StealerAt(thread).taken] else []
    {
      ReachedStep(model, history, owned, StealerMove(thread));
      OwnerEventsAppend(history, Effect(model, StealerMove(thread)));
      StolenByEffect(model, thread);
      Account(StealerMove(thread));
    }

    method StealReadTop(thread: Thread) returns (t: nat, ghost turn: seq<Move>)
      requires Valid() && model.StealerAt(thread) == Away
      modifies this, Arrays()
      ensures Valid() && model.StealerAt(thread) == StealLoadBottom(t) && t == old(top)
      ensures old(heap) <= heap && forall k :: |old(heap)| <= k < |heap| ==> fresh(heap[k].data)
      ensures old(history) <= history && StolenBy(thread, history) == old(StolenBy(thread, history))
      ensures Turn(thread, old(model), turn, model) && OnlyReads(thread, old(model), turn, model)
    {
      t := top;
      StealAccount(thread);
      ghost var others := OthersRun(thread);
      turn := TurnOf(thread, old(model), others, model);
    }

    method StealReadBottom(thread: Thread, t: nat) returns (b: int, ghost turn: seq<Move>)
      requires Valid() && model.StealerAt(thread) == StealLoadBottom(t)
      modifies this, Arrays()
      ensures Valid() && model.StealerAt(thread) == (if t < b then StealLoadBuffer(t) else Away) && b == old(bottom)
      ensures old(heap) <= heap && forall k :: |old(heap)| <= k < |heap| ==> fresh(heap[k].data)
      ensures old(history) <= history && StolenBy(thread, history) == old(StolenBy(thread, history))
      ensures Turn(thread, old(model), turn, model) && OnlyReads(thread, old(model), turn, model)
    {
      b := bottom;
      StealAccount(thread);
      ghost var others := OthersRun(thread);
      turn := TurnOf(thread, old(model), others, model);
    }

    method StealReadBuffer(thread: Thread, t: nat) returns (buf: CircularBuffer, place: nat, ghost turn: seq<Move>)
      requires Valid() && model.StealerAt(thread) == StealLoadBuffer(t)
      modifies this, Arrays()
      ensures Valid() && model.StealerAt(thread) == StealLoadSlot(t, place) && place < |heap| && buf == heap[place]
      ensures old(heap) <= heap && forall k :: |old(heap)| <= k < |heap| ==> fresh(heap[k].data)
      ensures old(history) <= history && StolenBy(thread, history) == old(StolenBy(thread, history))
      ensures Turn(thread, old(model), turn, model) && OnlyReads(thread, old(model), turn, model)
    {
      buf, place := buffer, model.buffer;
      StealAccount(thread);
      ghost var others := OthersRun(thread);
      turn := TurnOf(thread, old(model), others, model);
    }

    method StealReadSlot(thread: Thread, t: nat, buf: CircularBuffer, place: nat) returns (value: Handle, ghost turn: seq<Move>)
      requires Valid() && model.StealerAt(thread) == StealLoadSlot(t, place) && place < |heap| && buf == heap[place]
      modifies this, Arrays()
      ensures Valid() && model.StealerAt(thread) == StealRace(t, value)
      ensures old(heap) <= heap && forall k :: |old(heap)| <= k < |heap| ==> fresh(heap[k].data)
      ensures old(history) <= history && StolenBy(thread, history) == old(StolenBy(thread, history))
      ensures Turn(thread, old(model), turn, model) && OnlyReads(thread, old(model), turn, model)
    {
      assert Look(0) && buf.View() == model.heap[place];
      value := buf.Load(t);
      StealAccount(thread);
      ghost var others := OthersRun(thread);
      turn := TurnOf(thread, old(model), others, model);
    }

    method StealCompareExchange(thread: Thread, t: nat, value: Handle) returns (won: bool, ghost turn: seq<Move>)
      requires Valid() && model.StealerAt(thread) == StealRace(t, value)
      modifies this, Arrays()
      ensures Valid() && model.StealerAt(thread) == Away && (won <==> old(top) == t)
      ensures old(heap) <= heap && forall k :: |old(heap)| <= k < |heap| ==> fresh(heap[k].data)
      ensures old(history) <= history
      ensures StolenBy(thread, history) == old(StolenBy(thread, history)) + if won then [value] else []
      ensures Turn(thread, old(model), turn, model)
    {
      won := top == t;
      if won {
        top := t + 1;
      }
      StealAccount(thread);
      ghost var others := OthersRun(thread);
      turn := TurnOf(thread, old(model), others, model);
    }

    // Whatever the owner and the other thieves did meanwhile, this thief took the value it returns
    // off the left end, or nothing. `before` is what all threads did from the call up to its last
    // access, `last` that access and what others did after it. It returns an element exactly if
    // that access was a compare-and-swap that found `top` as it had been read, and then that was
    // the leftmost one. It returns none because the deque was empty but for an element the owner
    // was popping, or because another thread took an element after the call. Left alone, with no
    // operation of the owner under way, it returns none only from an empty deque.
    method Steal(thread: Thread) returns (result: Option<Handle>, ghost before: seq<Move>, ghost last: seq<Move>)
      requires Valid() && model.StealerAt(thread) == Away
      modifies this, Arrays()
      ensures Valid() && model.StealerAt(thread) == Away
      ensures old(heap) <= heap && forall k :: |old(heap)| <= k < |heap| ==> fresh(heap[k].data)
      ensures old(history) <= history
      ensures StolenBy(thread, history) == old(StolenBy(thread, history)) + if result.Some? then [result.value] else []
      ensures last != [] && Runs(old(model), before, last[0].state) && Turn(thread, last[0].state, last, model)
      ensures if result.Some? then Takes(thread, last[0].state, result.value)
              else FindsNothing(thread, last[0].state) || Loses(thread, before, last[0].state)
      ensures old(model).owner.Resting? && Alone(thread, before) && Alone(thread, last) ==>
                if result.Some? then old(Elements()) == [result.value] + Elements()
                else old(Elements()) == [] && Elements() == []
    {
      ghost var s := model;
      var t, first := StealReadTop(thread);
      ghost var s1 := model;
      FindsNothingAt(s1, history, owned, thread);
      var b, second := StealReadBottom(thread, t);
      ghost var s2 := model;
      if t < b {
        ghost var third;
        result, third, last := StealTake(thread, t);
        ghost var s4 := last[0].state;
        before := first + second + third;
        ThreeTurns(thread, s, first, s1, second, s2, third, s4);
        AloneTakes(thread, s, before, s4, last, model);
      } else {
        result, before, last := None, first, second;
        AloneFindsNothing(thread, s, first, s1, second, model);
      }
    }

    method StealTake(thread: Thread, t: nat) returns (result: Option<Handle>, ghost before: seq<Move>, ghost last: seq<Move>)
      requires Valid() && model.StealerAt(thread) == StealLoadBuffer(t)
      modifies this, Arrays()
      ensures Valid() && model.StealerAt(thread) == Away
      ensures old(heap) <= heap && forall k :: |old(heap)| <= k < |heap| ==> fresh(heap[k].data)
      ensures old(history) <= history
      ensures StolenBy(thread, history) == old(StolenBy(thread, history)) + if result.Some? then [result.value] else []
      ensures last != [] && Runs(old(model), before, last[0].state) && Turn(thread, last[0].state, last, model)
      ensures OnlyReads(thread, old(model), before, last[0].state)
      ensures last[0].state.StealerAt(thread).StealRace? && last[0].state.StealerAt(thread).t == t
      ensures result.Some? <==> last[0].state.top == t
      ensures result.Some? ==> Takes(thread, last[0].state, result.value)
    {
      ghost var s := model;
      var buf, place, first := StealReadBuffer(thread, t);
      ghost var s1 := model;
      var value, second := StealReadSlot(thread, t, buf, place);
      ghost var s2 := model;
      TurnsJoin(thread, s, first, s1, second, s2);
      before := first + second;
      RaceTakesLeftmost(s2, history, owned, thread);
      var won;
      won, last := StealCompareExchange(thread, t, value);
      if !won {
        return None, before, last;
      }
      return Some(value), before, last;
    }
  }

  // ----- what the threads did, step by step

  datatype Move = Move(state: State, action: Action)

  // The step can be taken and leads to this state.
  ghost predicate Makes(move: Move, next: State) {
    Enabled(move.state, move.action) && Defined(move.state, move.action) && Next(move.state, move.action) == next
  }

  ghost predicate Runs(s: State, moves: seq<Move>, s': State) {
    && (forall k :: 0 <= k < |moves| - 1 ==> Makes(moves[k], moves[k + 1].state))
    && if moves == [] then s == s' else moves[0].state == s && Makes(moves[|moves| - 1], s')
  }

  ghost predicate OfOthers(thread: Thread, moves: seq<Move>) {
    forall k :: 0 <= k < |moves| ==> moves[k].action != StealerMove(thread)
  }

  ghost predicate Alone(thread: Thread, moves: seq<Move>) {
    forall k :: 0 <= k < |moves| ==> moves[k].action == StealerMove(thread)
  }

  // One access of this thread, and then the others.
  ghost predicate Turn(thread: Thread, s: State, moves: seq<Move>, s': State) {
    Runs(s, moves, s') && moves != [] && moves[0].action == StealerMove(thread) && OfOthers(thread, moves[1..])
  }

  // Another thread took an element.
  ghost predicate SomeoneWins(thread: Thread, moves: seq<Move>) {
    exists k :: 0 <= k < |moves| && moves[k].action != StealerMove(thread) && Wins(moves[k].state, moves[k].action)
  }

  // If `top` has moved, another thread took an element; if no other thread moved, nothing has.
  ghost predicate OnlyReads(thread: Thread, s: State, moves: seq<Move>, s': State) {
    && (s'.top != s.top ==> SomeoneWins(thread, moves))
    && (Alone(thread, moves) ==> s' == s.(stealers := s'.stealers))
  }

  lemma RunsJoin(s: State, first: seq<Move>, s1: State, second: seq<Move>, s2: State)
    requires Runs(s, first, s1) && Runs(s1, second, s2)
    ensures Runs(s, first + second, s2)
  {
    var moves := first + second;
    forall k | 0 <= k < |moves| - 1
      ensures Makes(moves[k], moves[k + 1].state)
    {
      if k + 1 < |first| {
        assert Makes(first[k], first[k + 1].state);
      } else if k >= |first| {
        assert Makes(second[k - |first|], second[k - |first| + 1].state);
      }
    }
    assert second == [] ==> moves == first;
  }

  lemma {:induction false} OthersMoveTop(thread: Thread, s: State, others: seq<Move>, s': State)
    requires Runs(s, others, s') && OfOthers(thread, others)
    ensures s'.top != s.top ==> SomeoneWins(thread, others)
  {
    var k := 0;
    while k < |others|
      invariant k <= |others|
      invariant (if k < |others| then others[k].state else s').top != s.top ==> SomeoneWins(thread, others)
    {
      assert Makes(others[k], if k + 1 < |others| then others[k + 1].state else s');
      TopMovesOnlyByWinning(others[k].state, others[k].action);
      k := k + 1;
    }
  }

  lemma TurnOf(thread: Thread, s: State, others: seq<Move>, s': State) returns (turn: seq<Move>)
    requires Defined(s, StealerMove(thread))
    requires Runs(StealerNext(s, thread), others, s') && OfOthers(thread, others)
    ensures Turn(thread, s, turn, s')
    ensures !StealWins(s, thread) ==> OnlyReads(thread, s, turn, s')
    ensures Alone(thread, turn) ==> s' == StealerNext(s, thread)
  {
    var own := Move(s, StealerMove(thread));
    assert Makes(own, StealerNext(s, thread));
    turn := [own] + others;
    RunsJoin(s, [own], StealerNext(s, thread), others, s');
    OthersMoveTop(thread, StealerNext(s, thread), others, s');
    assert turn[1..] == others;
    NoMoreAlone(thread, own, others);
    LaterWins(thread, [own], others);
  }

  lemma NoMoreAlone(thread: Thread, own: Move, others: seq<Move>)
    ensures OfOthers(thread, others) && Alone(thread, [own] + others) ==> others == []
  {
    if others != [] {
      assert ([own] + others)[1] == others[0];
    }
  }

  lemma LaterWins(thread: Thread, first: seq<Move>, second: seq<Move>)
    ensures SomeoneWins(thread, first) || SomeoneWins(thread, second) ==> SomeoneWins(thread, first + second)
  {
    if k :| 0 <= k < |second| && second[k].action != StealerMove(thread) && Wins(second[k].state, second[k].action) {
      assert (first + second)[|first| + k] == second[k];
    }
    if k :| 0 <= k < |first| && first[k].action != StealerMove(thread) && Wins(first[k].state, first[k].action) {
      assert (first + second)[k] == first[k];
    }
  }

  lemma AloneInBoth(thread: Thread, first: seq<Move>, second: seq<Move>)
    requires Alone(thread, first + second)
    ensures Alone(thread, first) && Alone(thread, second)
  {
    assert forall k :: 0 <= k < |first| ==> (first + second)[k] == first[k];
    assert forall k :: 0 <= k < |second| ==> (first + second)[|first| + k] == second[k];
  }

  lemma TurnsJoin(thread: Thread, s: State, first: seq<Move>, s1: State, second: seq<Move>, s2: State)
    requires Runs(s, first, s1) && Runs(s1, second, s2)
    requires OnlyReads(thread, s, first, s1) && OnlyReads(thread, s1, second, s2)
    ensures Runs(s, first + second, s2) && OnlyReads(thread, s, first + second, s2)
  {
    RunsJoin(s, first, s1, second, s2);
    LaterWins(thread, first, second);
    if Alone(thread, first + second) {
      AloneInBoth(thread, first, second);
    }
  }

  lemma ThreeTurns(thread: Thread, s: State, first: seq<Move>, s1: State, second: seq<Move>, s2: State, third: seq<Move>, s3: State)
    requires Runs(s, first, s1) && Runs(s1, second, s2) && Runs(s2, third, s3)
    requires OnlyReads(thread, s, first, s1) && OnlyReads(thread, s1, second, s2) && OnlyReads(thread, s2, third, s3)
    ensures Runs(s, first + second + third, s3) && OnlyReads(thread, s, first + second + third, s3)
  {
    TurnsJoin(thread, s, first, s1, second, s2);
    TurnsJoin(thread, s, first + second, s2, third, s3);
  }

  // ----- how a steal ends

  // It is about to win its race, for the leftmost element, and removes that one.
  ghost predicate Takes(thread: Thread, s: State, value: Handle) {
    s.StealerAt(thread) == StealRace(s.top, value) && ElementsOf(s) == [value] + ElementsOf(StealerNext(s, thread))
  }

  // It is about to read a `bottom` that leaves nothing to steal: at most one element is there, and
  // only while the owner is popping that one.
  ghost predicate FindsNothing(thread: Thread, s: State) {
    && s.StealerAt(thread).StealLoadBottom? && s.StealerAt(thread).t >= s.bottom
    && |ElementsOf(s)| <= 1
    && (|ElementsOf(s)| == 1 ==> s.owner.PopLoadTop? || s.owner.PopLoadSlot? || s.owner.PopRace?)
  }

  // It is about to lose its race: since the call another thread took an element.
  ghost predicate Loses(thread: Thread, before: seq<Move>, s: State) {
    s.StealerAt(thread).StealRace? && s.top != s.StealerAt(thread).t && SomeoneWins(thread, before)
  }

  lemma RaceTakesLeftmost(s: State, events: seq<Event>, owned: seq<Event>, thread: Thread)
    requires Reached(s, events, owned) && s.StealerAt(thread).StealRace?
    ensures s.top == s.StealerAt(thread).t ==> Takes(thread, s, s.StealerAt(thread).taken)
  {
    var _ := ReachedIsExplained(s, events, owned);
    if s.top == s.StealerAt(thread).t {
      WonRace(s, thread);
    }
  }

  lemma FindsNothingAt(s: State, events: seq<Event>, owned: seq<Event>, thread: Thread)
    requires Reached(s, events, owned) && s.StealerAt(thread).StealLoadBottom?
    ensures s.StealerAt(thread).t >= s.bottom ==> FindsNothing(thread, s)
  {
    var _ := ReachedIsExplained(s, events, owned);
    if s.StealerAt(thread).t >= s.bottom {
      StealMissMeansNearlyEmpty(s, thread);
    }
  }

  lemma ElementsIgnoreStealers(s: State, s': State)
    requires s' == s.(stealers := s'.stealers)
    ensures ElementsOf(s') == ElementsOf(s)
  {
    assert End(s') == End(s);
  }

  // With nobody else about, nothing is found only if nothing is there.
  lemma AloneFindsNothing(thread: Thread, s: State, first: seq<Move>, s1: State, second: seq<Move>, s': State)
    requires OnlyReads(thread, s, first, s1) && OnlyReads(thread, s1, second, s') && FindsNothing(thread, s1)
    ensures s.owner.Resting? && Alone(thread, first) && Alone(thread, second) ==> ElementsOf(s) == [] == ElementsOf(s')
  {
    if s.owner.Resting? && Alone(thread, first) && Alone(thread, second) {
      ElementsIgnoreStealers(s, s1);
      ElementsIgnoreStealers(s1, s');
    }
  }

  // With nobody else about, the race is won.
  lemma AloneTakes(thread: Thread, s: State, before: seq<Move>, s1: State, last: seq<Move>, s': State)
    requires OnlyReads(thread, s, before, s1) && Turn(thread, s1, last, s')
    requires s1.StealerAt(thread).StealRace? && s1.StealerAt(thread).t == s.top
    requires s1.top == s.top ==> Takes(thread, s1, s1.StealerAt(thread).taken)
    ensures Alone(thread, before) && Alone(thread, last) ==>
              s1.top == s.top && ElementsOf(s) == [s1.StealerAt(thread).taken] + ElementsOf(s')
  {
    if Alone(thread, before) && Alone(thread, last) {
      ElementsIgnoreStealers(s, s1);
      OnlyOneMove(thread, s1, last, s');
    }
  }

  lemma OnlyOneMove(thread: Thread, s: State, turn: seq<Move>, s': State)
    requires Turn(thread, s, turn, s')
    ensures Alone(thread, turn) ==> s' == StealerNext(s, thread)
  {
    NoMoreAlone(thread, turn[0], turn[1..]);
    assert turn == [turn[0]] + turn[1..];
    assert Makes(turn[0], if |turn| == 1 then s' else turn[1].state);
  }

  lemma WonRace(s: State, thread: Thread)
    requires Inv(s) && s.StealerAt(thread).StealRace? && s.StealerAt(thread).t == s.top
    ensures ElementsOf(s) == [s.StealerAt(thread).taken] + ElementsOf(StealerNext(s, thread))
  {
    var q, e := Contents(s), Stolen(thread, s.StealerAt(thread).taken);
    StealRaceRefines(s, thread);
    ReplayOne(q, e);
    assert Replay(q, [e]) == Apply(q, e);
    assert q == [q[0]] + q[1..];
  }

  predicate StealWins(s: State, thread: Thread) {
    s.StealerAt(thread).StealRace? && s.top == s.StealerAt(thread).t
  }

  lemma StolenByEffect(s: State, thread: Thread)
    requires Defined(s, StealerMove(thread))
    ensures StolenBy(thread, Effect(s, StealerMove(thread))) == if StealWins(s, thread) then [s.StealerAt(thread).taken] else []
  {
  }

  // No element was taken by this thief.
  ghost predicate NotBy(thread: Thread, events: seq<Event>) {
    forall k :: 0 <= k < |events| ==> !(events[k].Stolen? && events[k].thread == thread)
  }

  lemma {:induction false} NotByAppend(thread: Thread, before: seq<Event>, events: seq<Event>)
    requires NotBy(thread, events)
    ensures StolenBy(thread, before + events) == StolenBy(thread, before)
    decreases |events|
  {
    var n := |events|;
    if n == 0 {
      assert before + events == before;
    } else {
      NotByAppend(thread, before, events[..n - 1]);
      assert (before + events)[..|before + events| - 1] == before + events[..n - 1];
    }
  }

  ghost predicate NoSteals(events: seq<Event>) {
    forall k :: 0 <= k < |events| ==> !events[k].Stolen?
  }

  ghost predicate SameShape(heap: seq<CircularBuffer>, view: seq<Buffer>) {
    && |heap| == |view|
    && (forall k :: 0 <= k < |heap| ==> heap[k].Valid() && heap[k].mask == view[k].mask)
    && (forall j, k :: 0 <= j < k < |heap| ==> heap[j].data != heap[k].data)
  }

  lemma MemoryShape(heap: seq<CircularBuffer>, view: seq<Buffer>)
    requires Memory(heap, view)
    ensures SameShape(heap, view)
  {
    assert Look(0);
    assert forall k :: 0 <= k < |heap| ==> heap[k].View().mask == heap[k].mask;
  }

  lemma OwnerStepShape(s: State, a: Action)
    requires Defined(s, a) && !a.StealerMove?
    ensures Next(s, a).stealers == s.stealers
    ensures |s.heap| <= |Next(s, a).heap| <= |s.heap| + 1
    ensures forall k :: 0 <= k < |s.heap| ==> Next(s, a).heap[k].mask == s.heap[k].mask
    ensures |Effect(s, a)| <= 1 && NoSteals(Effect(s, a))
  {
  }

  lemma ReachedBuffers(s: State, events: seq<Event>, owned: seq<Event>)
    requires Reached(s, events, owned)
    ensures s.buffer < |s.heap| && forall k :: 0 <= k < |s.heap| ==> s.heap[k].Valid()
  {
    var _ := ReachedIsExplained(s, events, owned);
  }

  lemma GrownIsYoungest(s: State, events: seq<Event>, owned: seq<Event>)
    requires Reached(s, events, owned) && s.owner.GrowPublish?
    ensures s.owner.grown == s.buffer + 1 == |s.heap| - 1
  {
    var _ := ReachedIsExplained(s, events, owned);
    UnpublishedIsOne(s);
  }

  lemma UnpublishedIsOne(s: State)
    requires Inv(s) && s.owner.GrowPublish?
    ensures |s.heap| == s.buffer + 2 && s.owner.grown == |s.heap| - 1
  {
  }

  lemma StealerStepFrame(s: State, thread: Thread)
    requires Defined(s, StealerMove(thread))
    ensures var s' := StealerNext(s, thread);
            s' == s.(top := s'.top, stealers := s'.stealers) && s.top <= s'.top
    ensures |Effect(s, StealerMove(thread))| <= 1 && Own(Effect(s, StealerMove(thread))) == []
    ensures forall other :: other != thread ==>
              StealerNext(s, thread).StealerAt(other) == s.StealerAt(other) &&
                   NotBy(other, Effect(s, StealerMove(thread)))
  {
  }

  lemma RestingBottom(s: State, events: seq<Event>, owned: seq<Event>)
    requires Reached(s, events, owned) && s.owner.Resting?
    ensures 0 <= s.bottom
  {
    var _ := ReachedIsExplained(s, events, owned);
  }
}
