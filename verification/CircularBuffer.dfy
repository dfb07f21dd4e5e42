/** The bounded buffer of encoded frames: a deque that drops its oldest elements. */
module CircularBuffer {
  import opened Wrappers

  /** The newest elements of s that a buffer of this capacity keeps; 0 is unlimited. */
  function Newest<T>(s: seq<T>, capacity: nat): seq<T> {
    if capacity == 0 || |s| <= capacity then s else s[|s| - capacity..]
  }

  /** push_back, then enforce_capacity, which drops at most one. */
  function Pushed<T>(buffer: seq<T>, x: T, capacity: nat): seq<T> {
    if capacity != 0 && |buffer + [x]| > capacity then (buffer + [x])[1..] else buffer + [x]
  }

  /** Dropping one is dropping enough exactly when the buffer was within its capacity. */
  lemma OneDropExact<T>(buffer: seq<T>, x: T, capacity: nat)
    ensures Pushed(buffer, x, capacity) == Newest(buffer + [x], capacity) <==> capacity == 0 || |buffer| <= capacity
  {
  }

  lemma NewestPush<T>(s: seq<T>, x: T, capacity: nat)
    ensures Newest(Newest(s, capacity) + [x], capacity) == Newest(s + [x], capacity)
  {
  }

  // ---------- runs ----------

  datatype Op<T> = Push(x: T) | TryPop | Clear | SetCapacity(capacity: nat)

  datatype Buffer<T> = Buffer(capacity: nat, buffer: seq<T>)

  function Apply<T>(b: Buffer<T>, op: Op<T>): Buffer<T> {
    match op
    case Push(x) => b.(buffer := Pushed(b.buffer, x, b.capacity))
    case TryPop => b.(buffer := if b.buffer == [] then [] else b.buffer[1..])
    case Clear => b.(buffer := [])
    case SetCapacity(c) => Buffer(c, Newest(b.buffer, c))
  }

  function Run<T>(b: Buffer<T>, ops: seq<Op<T>>): Buffer<T> {
    if ops == [] then b else Apply(Run(b, ops[..|ops| - 1]), ops[|ops| - 1])
  }

  /** The elements the operations push, oldest first. */
  function Pushes<T>(ops: seq<Op<T>>): seq<T> {
    if ops == [] then [] else Pushes(ops[..|ops| - 1]) + PushOf(ops[|ops| - 1])
  }

  function PushOf<T>(op: Op<T>): seq<T> {
    match op
    case Push(x) => [x]
    case _ => []
  }

  lemma Assoc<T>(a: seq<T>, b: seq<T>, c: seq<T>)
    ensures (a + b) + c == a + (b + c)
  {
  }

  ghost predicate Within<T>(b: Buffer<T>) {
    b.capacity == 0 || |b.buffer| <= b.capacity
  }

  /** Whatever is done to it, the buffer never outgrows its capacity, and holds the newest of
      what was pushed, in order: what left was always older. */
  lemma {:induction false} RunIsSuffix<T>(b: Buffer<T>, ops: seq<Op<T>>)
    requires Within(b)
    ensures Within(Run(b, ops))
    ensures var r := Run(b, ops).buffer; var all := b.buffer + Pushes(ops);
      |r| <= |all| && r == all[|all| - |r|..]
  {
    if ops != [] {
      var front, op := ops[..|ops| - 1], ops[|ops| - 1];
      RunIsSuffix(b, front);
      ApplyKeepsSuffix(Run(b, front), op, b.buffer + Pushes(front));
      Assoc(b.buffer, Pushes(front), PushOf(op));
    }
  }

  lemma ApplyKeepsSuffix<T>(b: Buffer<T>, op: Op<T>, all: seq<T>)
    requires Within(b) && |b.buffer| <= |all| && b.buffer == all[|all| - |b.buffer|..]
    ensures Within(Apply(b, op))
    ensures var r, all' := Apply(b, op).buffer, all + PushOf(op);
      |r| <= |all'| && r == all'[|all'| - |r|..]
  {
  }

  /** With pushes alone it holds as many of them as fit. */
  lemma {:induction false} PushesKeepNewest<T>(b: Buffer<T>, ops: seq<Op<T>>)
    requires Within(b) && forall i :: 0 <= i < |ops| ==> ops[i].Push?
    ensures Run(b, ops) == b.(buffer := Newest(b.buffer + Pushes(ops), b.capacity))
  {
    if ops != [] {
      var front, x := ops[..|ops| - 1], ops[|ops| - 1].x;
      PushesKeepNewest(b, front);
      var all := b.buffer + Pushes(front);
      NewestPush(all, x, b.capacity);
      OneDropExact(Newest(all, b.capacity), x, b.capacity);
      assert all + [x] == b.buffer + Pushes(ops);
    }
  }

  /** CircularBuffer.hpp:13-125.  Each method holds the mutex throughout. */
  class CircularBuffer<T> {
    var capacity: nat
    var buffer: seq<T>
    ghost var pushed: seq<T>  // ever
    ghost var gone: seq<T>    // popped, dropped or cleared, in that order

    ghost predicate Valid()
      reads this
    {
      Within(State()) && pushed == gone + buffer
    }

    ghost function State(): Buffer<T>
      reads this
    {
      Buffer(capacity, buffer)
    }

    constructor (capacity: nat)
      ensures Valid() && State() == Buffer(capacity, []) && pushed == []
    {
      this.capacity := capacity;
      buffer, pushed, gone := [], [], [];
    }

    method Push(x: T)
      requires Valid()
      modifies this
      ensures Valid() && State() == Apply(old(State()), Op.Push(x))
      ensures buffer == Newest(old(buffer) + [x], capacity) && pushed == old(pushed) + [x]
    {
      OneDropExact(buffer, x, capacity);
      buffer, pushed := buffer + [x], pushed + [x];
      EnforceCapacity();
    }

    method EnforceCapacity()
      requires pushed == gone + buffer && (capacity == 0 || |buffer| <= capacity + 1)
      modifies this`buffer, this`gone
      ensures Valid() && buffer == Newest(old(buffer), capacity)
    {
      if capacity == 0 {
        return;
      }
      if |buffer| > capacity {
        PopFront();
      }
    }

    method PopFront()
      requires pushed == gone + buffer && buffer != []
      modifies this`buffer, this`gone
      ensures pushed == gone + buffer && buffer == old(buffer)[1..] && gone == old(gone) + [old(buffer)[0]]
    {
      buffer, gone := buffer[1..], gone + [buffer[0]];
    }

    method TryPop() returns (r: Option<T>)
      requires Valid()
      modifies this`buffer, this`gone
      ensures Valid() && State() == Apply(old(State()), Op.TryPop) && capacity == old(capacity)
      ensures buffer == if old(buffer) == [] then [] else old(buffer)[1..]
      ensures r == if old(buffer) == [] then None else Some(old(buffer)[0])
    {
      if buffer == [] {
        return None;
      }
      r := Some(buffer[0]);
      PopFront();
    }

    method Clear()
      requires Valid()
      modifies this`buffer, this`gone
      ensures Valid() && State() == Apply(old(State()), Op.Clear)
      ensures buffer == [] && gone == pushed == old(pushed) && capacity == old(capacity)
    {
      buffer, gone := [], gone + buffer;
    }

    method SetCapacity(newCapacity: nat)
      requires Valid()
      modifies this`capacity, this`buffer, this`gone
      ensures Valid() && State() == Apply(old(State()), Op.SetCapacity(newCapacity))
      ensures capacity == newCapacity && pushed == old(pushed)
      ensures |buffer| == (if 0 < newCapacity < |old(buffer)| then newCapacity else |old(buffer)|)
      ensures buffer == old(buffer)[|old(buffer)| - |buffer|..]
    {
      capacity := newCapacity;
      while capacity > 0 && |buffer| > capacity
        invariant capacity == newCapacity && pushed == gone + buffer
        invariant |buffer| <= |old(buffer)| && buffer == old(buffer)[|old(buffer)| - |buffer|..]
        invariant |buffer| == |old(buffer)| || (capacity > 0 && |buffer| >= capacity)
        decreases |buffer|
      {
        PopFront();
      }
    }

    /** A copy: the buffer stays as it is. */
    method Snapshot() returns (s: seq<T>)
      requires Valid()
      ensures s == buffer && exists older :: pushed == older + s
    {
      assert pushed == gone + buffer;
      return buffer;
    }
  }
}
