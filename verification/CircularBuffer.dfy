/**
  The ring buffer under the work-stealing deque: `ChaseLevDeque::CircularBuffer`.

  `Buffer` is the buffer as a value, used by the step-by-step model of the deque.
  `CircularBuffer` is the buffer as the source has it, an array written in place; its
  methods are proved against the functions of `Buffer`.
*/
module CircularBuffers {

  // A coroutine handle, by its address. The null handle is 0.
  type Handle = nat
  const NULL_HANDLE: Handle := 0

  // Bitwise conjunction of two unsigned words.
  function BitAnd(a: nat, b: nat): nat
    decreases a
  {
    if a == 0 || b == 0 then 0 else 2 * BitAnd(a / 2, b / 2) + (a % 2) * (b % 2)
  }

  predicate IsPowerOfTwo(n: nat) {
    n == 1 || (n > 1 && n % 2 == 0 && IsPowerOfTwo(n / 2))
  }

  datatype Buffer = Buffer(mask: nat, data: seq<Handle>) {

    function Capacity(): nat { mask + 1 }

    ghost predicate Valid() { IsPowerOfTwo(mask + 1) && |data| == mask + 1 }

    function Slot(index: nat): nat { BitAnd(index, mask) }

    function Load(index: nat): Handle
      requires Valid()
    {
      MaskInRange(index, mask + 1);
      data[Slot(index)]
    }

    function Store(index: nat, value: Handle): (r: Buffer)
      requires Valid()
      ensures r.Valid() && r.mask == mask
    {
      MaskInRange(index, mask + 1);
      this.(data := data[Slot(index) := value])
    }
  }

  function Fresh(capacity: nat): (buffer: Buffer)
    requires IsPowerOfTwo(capacity)
    ensures buffer.Valid() && buffer.Capacity() == capacity
  {
    Buffer(capacity - 1, seq(capacity, _ => NULL_HANDLE))
  }

  // One pass of the copying loop for each index of [start, end), into `grown`.
  function CopyRange(source: Buffer, grown: Buffer, start: nat, end: nat): (r: Buffer)
    requires source.Valid() && grown.Valid()
    requires start <= end
    ensures r.Valid() && r.mask == grown.mask
    decreases end
  {
    if start == end then grown
    else
      var before := CopyRange(source, grown, start, end - 1);
      before.Store(end - 1, source.Load(end - 1))
  }

  // ----- masking

  // Masking with a capacity less one gives a slot of the buffer.
  lemma {:induction false} MaskInRange(index: nat, capacity: nat)
    requires IsPowerOfTwo(capacity)
    ensures BitAnd(index, capacity - 1) < capacity
    decreases index
  {
    if capacity != 1 && index != 0 {
      assert (capacity - 1) / 2 == capacity / 2 - 1;
      MaskInRange(index / 2, capacity / 2);
    }
  }

  // Indices less than one capacity apart never share a slot.
  lemma {:induction false} MaskIsInjectiveInWindow(i: nat, j: nat, capacity: nat)
    requires IsPowerOfTwo(capacity)
    requires i < j < i + capacity
    ensures BitAnd(i, capacity - 1) != BitAnd(j, capacity - 1)
    decreases j
  {
    assert (capacity - 1) / 2 == capacity / 2 - 1 && (capacity - 1) % 2 == 1;
    if i % 2 == j % 2 {
      MaskIsInjectiveInWindow(i / 2, j / 2, capacity / 2);
    }
  }

  // An unsigned word less one, wrapping around at zero.
  const WORD: nat := 0x1_0000_0000_0000_0000

  function LessOne(n: nat): nat {
    if n == 0 then WORD - 1 else n - 1
  }

  // The constructor's assertion `(cap & (cap - 1)) == 0` accepts the powers of two, and 0.
  lemma CapacityCheckIsPowerOfTwo(capacity: nat)
    ensures BitAnd(capacity, LessOne(capacity)) == 0 <==> IsPowerOfTwo(capacity) || capacity == 0
  {
    if capacity > 0 {
      PositiveCapacityCheck(capacity);
    }
  }

  lemma {:induction false} PositiveCapacityCheck(capacity: nat)
    requires capacity > 0
    ensures BitAnd(capacity, capacity - 1) == 0 <==> IsPowerOfTwo(capacity)
  {
    if capacity > 1 {
      if capacity % 2 == 0 {
        assert (capacity - 1) / 2 == capacity / 2 - 1;
        PositiveCapacityCheck(capacity / 2);
      } else {
        assert (capacity - 1) / 2 == capacity / 2;
        BitAndSelf(capacity / 2);
      }
    }
  }

  lemma {:induction false} BitAndSelf(a: nat)
    ensures BitAnd(a, a) == a
  {
    if a != 0 {
      BitAndSelf(a / 2);
    }
  }

  // What a load sees after a store: the stored value at that index, anything else in the window
  // as before.
  lemma LoadAfterStore(buffer: Buffer, index: nat, value: Handle, i: nat)
    requires buffer.Valid()
    ensures buffer.Store(index, value).Valid()
    ensures buffer.Store(index, value).Load(index) == value
    ensures i < index < i + buffer.Capacity() || index < i < index + buffer.Capacity()
            ==> buffer.Store(index, value).Load(i) == buffer.Load(i)
  {
    MaskInRange(index, buffer.mask + 1);
    MaskInRange(i, buffer.mask + 1);
    var stored := buffer.Store(index, value);
    MaskInRange(index, stored.mask + 1);
    MaskInRange(i, stored.mask + 1);
    if i < index < i + buffer.Capacity() {
      MaskIsInjectiveInWindow(i, index, buffer.mask + 1);
    } else if index < i < index + buffer.Capacity() {
      MaskIsInjectiveInWindow(index, i, buffer.mask + 1);
    }
  }

  // Growth keeps every index it copies, whenever the copied range fits the new buffer.
  lemma {:induction false} CopyRangeKeeps(source: Buffer, grown: Buffer, start: nat, end: nat, i: nat)
    requires source.Valid() && grown.Valid()
    requires start <= i < end <= start + grown.Capacity()
    ensures CopyRange(source, grown, start, end).Load(i) == source.Load(i)
    decreases end
  {
    var before := CopyRange(source, grown, start, end - 1);
    LoadAfterStore(before, end - 1, source.Load(end - 1), i);
    if i < end - 1 {
      CopyRangeKeeps(source, grown, start, end - 1, i);
    }
  }

  // The buffer as the source has it.
  class CircularBuffer {
    const mask: nat
    const data: array<Handle>

    ghost predicate Valid() {
      IsPowerOfTwo(mask + 1) && data.Length == mask + 1
    }

    ghost function View(): (view: Buffer)
      requires Valid()
      reads data
      ensures view.Valid()
    {
      Buffer(mask, data[..])
    }

    constructor (capacity: nat)
      requires IsPowerOfTwo(capacity)
      ensures Valid() && fresh(data)
      ensures View() == Fresh(capacity)
    {
      mask := capacity - 1;
      data := new Handle[capacity](_ => NULL_HANDLE);
    }

    method Store(index: nat, value: Handle)
      requires Valid()
      modifies data
      ensures View() == old(View()).Store(index, value)
    {
      MaskInRange(index, mask + 1);
      data[BitAnd(index, mask)] := value;
    }

    method Load(index: nat) returns (value: Handle)
      requires Valid()
      ensures value == View().Load(index)
    {
      MaskInRange(index, mask + 1);
      value := data[BitAnd(index, mask)];
    }

    // A buffer of twice the capacity holding the indices of [top, bottom).
    method Grow(top: nat, bottom: nat) returns (grown: CircularBuffer)
      requires Valid()
      ensures fresh(grown) && fresh(grown.data) && grown.Valid()
      ensures IsPowerOfTwo(2 * (mask + 1))
      ensures grown.View() == CopyRange(View(), Fresh(2 * (mask + 1)), top, if top < bottom then bottom else top)
      ensures bottom <= top + 2 * (mask + 1)
              ==> forall i :: top <= i < bottom ==> grown.View().Load(i) == View().Load(i)
    {
      assert IsPowerOfTwo(2 * (mask + 1));
      grown := new CircularBuffer(2 * (mask + 1));
      ghost var blank := grown.View();
      var i := top;
      while i < bottom
        invariant top <= i && (i == top || i <= bottom)
        invariant grown.Valid() && fresh(grown) && fresh(grown.data) && data[..] == old(data[..])
        invariant grown.View() == CopyRange(View(), blank, top, i)
      {
        var value := Load(i);
        grown.Store(i, value);
        i := i + 1;
      }
      forall j | top <= j < bottom <= top + 2 * (mask + 1)
        ensures grown.View().Load(j) == View().Load(j)
      {
        CopyRangeKeeps(View(), blank, top, bottom, j);
      }
    }
  }
}
