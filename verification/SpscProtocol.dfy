/**
 The lock-free single-producer single-consumer queue as a step system: each atomic load or
 store of inner_enqueue, try_dequeue, pop and peek is one step, and the two threads may
 interleave in any way (sequential consistency).
 */
module SpscProtocol {
  import opened Wrappers
  import opened Blocks

  datatype Mode = CanAlloc | CannotAlloc
  datatype Op = TryDequeue | Pop | Peek

  /** Program counter and locals of inner_enqueue.  Blocks are named by their address. */
  datatype Producer<T> =
    | PIdle
    | PLoadTailBlock(e: T, mode: Mode)
    | PLoadTail(e: T, mode: Mode, tb: nat, bf: nat)
    | PLoadFront(e: T, mode: Mode, tb: nat, bt: nat)
    | PConstruct(e: T, tb: nat, bt: nat)
    | PStoreTail(e: T, tb: nat, bt: nat)
    | PLoadNext(e: T, mode: Mode, tb: nat)
    | PLoadFrontBlock(e: T, mode: Mode, tb: nat, nx: nat)
    | PReloadNext(e: T, tb: nat)
    | PLoadNextFront(e: T, tb: nat, nb: nat)
    | PLoadNextTail(e: T, tb: nat, nb: nat, nbf: nat)
    | PConstructNext(e: T, tb: nat, nb: nat, nbt: nat)
    | PStoreNextTail(e: T, tb: nat, nb: nat, nbt: nat)
    | PAlloc(e: T, tb: nat)
    | PConstructNew(e: T, tb: nat, nb: nat)
    | PStoreNewTail(e: T, tb: nat, nb: nat)
    | PLinkNew(e: T, tb: nat, nb: nat)
    | PSplice(e: T, tb: nat, nb: nat)
    | PStoreTailBlock(e: T, tb: nat, nb: nat)
    | PReturn(ok: bool)
    | PFault  // an assertion failed, or there is no such slot

  /** Program counter and locals of try_dequeue, pop and peek. */
  datatype Consumer<T> =
    | CIdle
    | CLoadFrontBlock(op: Op)
    | CLoadFront(op: Op, fb: nat, lt: nat)
    | CLoadTail(op: Op, fb: nat, bf: nat)
    | CLoadTailBlock(op: Op, fb: nat)
    | CReloadFrontBlock(op: Op)
    | CReloadTail(op: Op, fb: nat)
    | CReloadFront(op: Op, fb: nat, bt: nat)
    | CLoadNext(op: Op, fb: nat)
    | CLoadNextFront(op: Op, nb: nat)
    | CLoadNextTail(op: Op, nb: nat, nbf: nat)
    | CStoreFrontBlock(op: Op, nb: nat, nbf: nat)
    | CTake(op: Op, b: nat, bf: nat)
    | CStoreFront(op: Op, b: nat, bf: nat, v: T)
    | CReturn(op: Op, result: Option<T>)
    | CFault

  /** `ring` and `tp` are bookkeeping that no step tests: the linked blocks in order of `next`
      starting at the front block, and the position of the tail block among them. */
  datatype State<T> = State(
    blocks: seq<Block<T>>, next: seq<nat>, frontBlock: nat, tailBlock: nat,
    largest: nat, maxBlock: nat, p: Producer<T>, c: Consumer<T>,
    ring: seq<nat>, tp: nat)

  datatype Event<T> =
    | StartEnqueue(e: T, mode: Mode)
    | StartDequeue(op: Op)
    | ProducerStep
    | ProducerAlloc(data: seq<T>)  // malloc succeeded; `data` is what the memory happens to hold
    | ConsumerStep

  // ---------- well-typed states: every name and index addresses something ----------

  ghost predicate IsBlock<T>(s: State<T>, b: nat) {
    b < |s.blocks|
  }

  ghost predicate IsSlot<T>(s: State<T>, b: nat, i: nat) {
    b < |s.blocks| && i < s.blocks[b].size
  }

  ghost predicate ProducerTyped<T>(s: State<T>) {
    match s.p
    case PLoadTail(_, _, tb, bf) => IsSlot(s, tb, bf)
    case PLoadFront(_, _, tb, bt) => IsSlot(s, tb, bt)
    case PConstruct(_, tb, bt) => IsSlot(s, tb, bt)
    case PStoreTail(_, tb, bt) => IsSlot(s, tb, bt)
    case PLoadNext(_, _, tb) => IsBlock(s, tb)
    case PLoadFrontBlock(_, _, tb, _) => IsBlock(s, tb)
    case PReloadNext(_, tb) => IsBlock(s, tb)
    case PLoadNextFront(_, tb, nb) => IsBlock(s, tb) && IsBlock(s, nb)
    case PLoadNextTail(_, tb, nb, nbf) => IsBlock(s, tb) && IsSlot(s, nb, nbf)
    case PConstructNext(_, tb, nb, nbt) => IsBlock(s, tb) && IsSlot(s, nb, nbt)
    case PStoreNextTail(_, tb, nb, nbt) => IsBlock(s, tb) && IsSlot(s, nb, nbt)
    case PAlloc(_, tb) => IsBlock(s, tb)
    case PConstructNew(_, tb, nb) => IsBlock(s, tb) && IsSlot(s, nb, 1)
    case PStoreNewTail(_, tb, nb) => IsBlock(s, tb) && IsSlot(s, nb, 1)
    case PLinkNew(_, tb, nb) => IsBlock(s, tb) && IsBlock(s, nb)
    case PSplice(_, tb, nb) => IsBlock(s, tb) && IsBlock(s, nb)
    case PStoreTailBlock(_, tb, nb) => IsBlock(s, tb) && IsBlock(s, nb)
    case _ => true
  }

  ghost predicate ConsumerTyped<T>(s: State<T>) {
    match s.c
    case CLoadFront(_, fb, lt) => IsSlot(s, fb, lt)
    case CLoadTail(_, fb, bf) => IsSlot(s, fb, bf)
    case CLoadTailBlock(_, fb) => IsBlock(s, fb)
    case CReloadTail(_, fb) => IsBlock(s, fb)
    case CReloadFront(_, fb, bt) => IsSlot(s, fb, bt)
    case CLoadNext(_, fb) => IsBlock(s, fb)
    case CLoadNextFront(_, nb) => IsBlock(s, nb)
    case CLoadNextTail(_, nb, nbf) => IsSlot(s, nb, nbf)
    case CStoreFrontBlock(_, nb, nbf) => IsSlot(s, nb, nbf)
    case CTake(_, b, bf) => IsSlot(s, b, bf)
    case CStoreFront(_, b, bf, _) => IsSlot(s, b, bf)
    case _ => true
  }

  ghost predicate MemoryTyped<T>(s: State<T>) {
    && IsBlock(s, s.frontBlock) && IsBlock(s, s.tailBlock)
    && |s.next| == |s.blocks|
    && (forall b :: 0 <= b < |s.next| ==> IsBlock(s, s.next[b]))
    && (forall b :: 0 <= b < |s.blocks| ==> s.blocks[b].Typed())
    && s.largest >= 1 && s.maxBlock >= 2
  }

  ghost predicate Typed<T>(s: State<T>) {
    MemoryTyped(s) && ProducerTyped(s) && ConsumerTyped(s)
  }

  /** Every block name is that of a block; nothing about slots.  A step needs no more. */
  ghost predicate Named<T>(s: State<T>) {
    && IsBlock(s, s.frontBlock) && IsBlock(s, s.tailBlock)
    && |s.next| == |s.blocks|
    && (forall b :: 0 <= b < |s.next| ==> IsBlock(s, s.next[b]))
    && ProducerNamed(s) && ConsumerNamed(s)
  }

  ghost predicate ProducerNamed<T>(s: State<T>) {
    match s.p
    case PLoadTail(_, _, tb, _) => IsBlock(s, tb)
    case PLoadFront(_, _, tb, _) => IsBlock(s, tb)
    case PConstruct(_, tb, _) => IsBlock(s, tb)
    case PStoreTail(_, tb, _) => IsBlock(s, tb)
    case PLoadNext(_, _, tb) => IsBlock(s, tb)
    case PReloadNext(_, tb) => IsBlock(s, tb)
    case PLoadNextFront(_, _, nb) => IsBlock(s, nb)
    case PLoadNextTail(_, _, nb, _) => IsBlock(s, nb)
    case PConstructNext(_, _, nb, _) => IsBlock(s, nb)
    case PStoreNextTail(_, _, nb, _) => IsBlock(s, nb)
    case PConstructNew(_, _, nb) => IsBlock(s, nb)
    case PStoreNewTail(_, _, nb) => IsBlock(s, nb)
    case PLinkNew(_, tb, nb) => IsBlock(s, tb) && IsBlock(s, nb)
    case PSplice(_, tb, nb) => IsBlock(s, tb) && IsBlock(s, nb)
    case _ => true
  }

  ghost predicate ConsumerNamed<T>(s: State<T>) {
    match s.c
    case CLoadFront(_, fb, _) => IsBlock(s, fb)
    case CLoadTail(_, fb, _) => IsBlock(s, fb)
    case CReloadTail(_, fb) => IsBlock(s, fb)
    case CReloadFront(_, fb, _) => IsBlock(s, fb)
    case CLoadNext(_, fb) => IsBlock(s, fb)
    case CLoadNextFront(_, nb) => IsBlock(s, nb)
    case CLoadNextTail(_, nb, _) => IsBlock(s, nb)
    case CTake(_, b, _) => IsBlock(s, b)
    case CStoreFront(_, b, _, _) => IsBlock(s, b)
    case _ => true
  }

  // ---------- the steps ----------

  function NewBlockSize<T>(s: State<T>): nat {
    if s.largest >= s.maxBlock then s.largest else s.largest * 2
  }

  ghost predicate Enabled<T>(s: State<T>, ev: Event<T>) {
    match ev
    case StartEnqueue(_, _) => s.p.PIdle?
    case StartDequeue(_) => s.c.CIdle?
    case ProducerStep => !s.p.PIdle? && !s.p.PFault?
    case ProducerAlloc(data) => s.p.PAlloc? && |data| == NewBlockSize(s)
    case ConsumerStep => !s.c.CIdle? && !s.c.CFault?
  }

  ghost function Step<T>(s: State<T>, ev: Event<T>): (s': State<T>)
    requires Named(s) && Enabled(s, ev)
  {
    match ev
    case StartEnqueue(e, mode) => s.(p := PLoadTailBlock(e, mode))
    case StartDequeue(op) => s.(c := CLoadFrontBlock(op))
    case ProducerStep => ProducerStep'(s)
    case ProducerAlloc(data) => AllocStep(s, data)
    case ConsumerStep => ConsumerStep'(s)
  }

  /** readerwriterqueue.h:552-643. */
  ghost function ProducerStep'<T>(s: State<T>): (s': State<T>)
    requires Named(s) && Enabled(s, ProducerStep)
  {
    match s.p
    case PLoadTailBlock(e, mode) =>
      s.(p := PLoadTail(e, mode, s.tailBlock, s.blocks[s.tailBlock].localFront))
    case PLoadTail(e, mode, tb, bf) =>
      var bt := s.blocks[tb].tail;
      if Next(bt, s.blocks[tb].size) != bf then s.(p := PConstruct(e, tb, bt))
      else s.(p := PLoadFront(e, mode, tb, bt))
    case PLoadFront(e, mode, tb, bt) =>
      var b := s.blocks[tb];
      var s1 := s.(blocks := s.blocks[tb := b.(localFront := b.front)]);
      if Next(bt, b.size) != b.front then s1.(p := PConstruct(e, tb, bt))
      else s1.(p := PLoadNext(e, mode, tb))
    case PConstruct(e, tb, bt) =>
      if !HasSlot(s.blocks[tb], bt) then s.(p := PFault)
      else s.(blocks := s.blocks[tb := Construct(s.blocks[tb], bt, e)], p := PStoreTail(e, tb, bt))
    case PStoreTail(_, tb, bt) =>
      s.(blocks := s.blocks[tb := s.blocks[tb].(tail := Next(bt, s.blocks[tb].size))], p := PReturn(true))
    case PLoadNext(e, mode, tb) =>
      s.(p := PLoadFrontBlock(e, mode, tb, s.next[tb]))
    case PLoadFrontBlock(e, mode, tb, nx) =>
      if nx != s.frontBlock then s.(p := PReloadNext(e, tb))
      else if mode.CanAlloc? then s.(p := PAlloc(e, tb))
      else s.(p := PReturn(false))
    case PReloadNext(e, tb) =>
      s.(p := PLoadNextFront(e, tb, s.next[tb]))
    case PLoadNextFront(e, tb, nb) =>
      var b := s.blocks[nb];
      s.(blocks := s.blocks[nb := b.(localFront := b.front)], p := PLoadNextTail(e, tb, nb, b.front))
    case PLoadNextTail(e, tb, nb, nbf) =>
      if nbf != s.blocks[nb].tail then s.(p := PFault)
      else s.(p := PConstructNext(e, tb, nb, s.blocks[nb].tail))
    case PConstructNext(e, tb, nb, nbt) =>
      if !HasSlot(s.blocks[nb], nbt) then s.(p := PFault)
      else s.(blocks := s.blocks[nb := Construct(s.blocks[nb], nbt, e)], p := PStoreNextTail(e, tb, nb, nbt))
    case PStoreNextTail(e, tb, nb, nbt) =>
      s.(blocks := s.blocks[nb := s.blocks[nb].(tail := Next(nbt, s.blocks[nb].size))],
         p := PStoreTailBlock(e, tb, nb))
    case PAlloc(_, _) =>
      s.(p := PReturn(false))  // malloc returned null
    case PConstructNew(e, tb, nb) =>
      if !HasSlot(s.blocks[nb], 0) then s.(p := PFault)
      else s.(blocks := s.blocks[nb := Construct(s.blocks[nb], 0, e)], p := PStoreNewTail(e, tb, nb))
    case PStoreNewTail(e, tb, nb) =>
      s.(blocks := s.blocks[nb := s.blocks[nb].(tail := 1, localTail := 1)], p := PLinkNew(e, tb, nb))
    case PLinkNew(e, tb, nb) =>
      s.(next := s.next[nb := s.next[tb]], p := PSplice(e, tb, nb))
    case PSplice(e, tb, nb) =>
      s.(next := s.next[tb := nb], p := PStoreTailBlock(e, tb, nb),
         ring := if s.tp < |s.ring| then s.ring[..s.tp + 1] + [nb] + s.ring[s.tp + 1..] else s.ring)
    case PStoreTailBlock(_, _, nb) =>
      s.(tailBlock := nb, p := PReturn(true), tp := s.tp + 1)
    case PReturn(_) =>
      s.(p := PIdle)
  }

  /** readerwriterqueue.h:605-611: make_block succeeded. */
  ghost function AllocStep<T>(s: State<T>, data: seq<T>): (s': State<T>)
    requires Named(s) && Enabled(s, ProducerAlloc(data))
  {
    var size := NewBlockSize(s);
    var nb := |s.blocks|;
    s.(blocks := s.blocks + [Block(size, 0, 0, 0, 0, data, seq(size, _ => false))],
       next := s.next + [nb], largest := size, p := PConstructNew(s.p.e, s.p.tb, nb))
  }

  /** readerwriterqueue.h:308-375, 391-420 and 433-488. */
  ghost function ConsumerStep'<T>(s: State<T>): (s': State<T>)
    requires Named(s) && Enabled(s, ConsumerStep)
  {
    match s.c
    case CLoadFrontBlock(op) =>
      s.(c := CLoadFront(op, s.frontBlock, s.blocks[s.frontBlock].localTail))
    case CLoadFront(op, fb, lt) =>
      var bf := s.blocks[fb].front;
      if bf != lt then s.(c := CTake(op, fb, bf)) else s.(c := CLoadTail(op, fb, bf))
    case CLoadTail(op, fb, bf) =>
      var b := s.blocks[fb];
      var s1 := s.(blocks := s.blocks[fb := b.(localTail := b.tail)]);
      if bf != b.tail then s1.(c := CTake(op, fb, bf)) else s1.(c := CLoadTailBlock(op, fb))
    case CLoadTailBlock(op, fb) =>
      if fb != s.tailBlock then s.(c := CReloadFrontBlock(op)) else s.(c := CReturn(op, None))
    case CReloadFrontBlock(op) =>
      s.(c := CReloadTail(op, s.frontBlock))
    case CReloadTail(op, fb) =>
      var b := s.blocks[fb];
      s.(blocks := s.blocks[fb := b.(localTail := b.tail)], c := CReloadFront(op, fb, b.tail))
    case CReloadFront(op, fb, bt) =>
      var bf := s.blocks[fb].front;
      if bf != bt then s.(c := CTake(op, fb, bf)) else s.(c := CLoadNext(op, fb))
    case CLoadNext(op, fb) =>
      s.(c := CLoadNextFront(op, s.next[fb]))
    case CLoadNextFront(op, nb) =>
      s.(c := CLoadNextTail(op, nb, s.blocks[nb].front))
    case CLoadNextTail(op, nb, nbf) =>
      var b := s.blocks[nb];
      if nbf == b.tail then s.(c := CFault)
      else if op.Peek? then s.(c := CTake(op, nb, nbf))
      else s.(blocks := s.blocks[nb := b.(localTail := b.tail)], c := CStoreFrontBlock(op, nb, nbf))
    case CStoreFrontBlock(op, nb, nbf) =>
      s.(frontBlock := nb, c := CTake(op, nb, nbf),
         ring := if |s.ring| > 0 then s.ring[1..] + [s.ring[0]] else [],
         tp := if s.tp > 0 then s.tp - 1 else 0)
    case CTake(op, b, bf) =>
      var blk := s.blocks[b];
      if !HasSlot(blk, bf) then s.(c := CFault)
      else if op.Peek? then s.(c := CReturn(op, Some(blk.data[bf])))
      else
        s.(blocks := s.blocks[b := blk.(live := blk.live[bf := false])], c := CStoreFront(op, b, bf, blk.data[bf]))
    case CStoreFront(op, b, bf, v) =>
      s.(blocks := s.blocks[b := s.blocks[b].(front := Next(bf, s.blocks[b].size))], c := CReturn(op, Some(v)))
    case CReturn(_, _) =>
      s.(c := CIdle)
  }

  predicate HasSlot<T>(b: Block<T>, i: nat) {
    i < |b.data| && i < |b.live|
  }

  function Construct<T>(b: Block<T>, i: nat, e: T): Block<T>
    requires HasSlot(b, i)
  {
    b.(data := b.data[i := e], live := b.live[i := true])
  }
}
