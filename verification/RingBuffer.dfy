/**
 The lock-free ring buffer between one producer and one consumer.

 First the buffer as a state machine, one atomic access a step, in which every interleaving of the
 two sides is a sequence of actions; it refines a bounded first-in first-out queue.  Then the same
 operations as methods on a buffer that no one else touches.
 */
module RingBuffer {

  // ----- The state machine -------------------------------------------------------------------

  /** Where the producer is inside Push, with what it has loaded. */
  datatype Producer<T> =
    | Ready
    | LoadedHead(item: T, head: int)
    | LoadedTail(item: T, head: int, tail: int)
    | Written(item: T, head: int)

  /** Where the consumer is inside Pop. */
  datatype Consumer<T> =
    | Idle
    | LoadedOwnTail(tail: int)
    | LoadedBoth(tail: int, head: int)
    | Read(item: T, tail: int)

  /** The buffer, the two sides, and the history: all items pushed and all items popped. */
  datatype State<T> = State(data: seq<T>, head: int, tail: int, producer: Producer<T>, consumer: Consumer<T>,
                            pushed: seq<T>, popped: seq<T>)

  datatype Action<T> = Push(item: T) | ProducerStep | Pop | ConsumerStep

  function Initial<T>(data: seq<T>): State<T> {
    State(data, 0, 0, Ready, Idle, [], [])
  }

  predicate SeesFull<T>(s: State<T>, head: int, tail: int) {
    head - tail >= |s.data|
  }

  function ProducerNext<T>(s: State<T>): State<T>
    requires s.producer.LoadedTail? && !SeesFull(s, s.producer.head, s.producer.tail) ==> |s.data| > 0
  {
    match s.producer
    case Ready => s
    case LoadedHead(item, head) => s.(producer := LoadedTail(item, head, s.tail))
    case LoadedTail(item, head, tail) =>
      if SeesFull(s, head, tail) then s.(producer := Ready)
      else s.(data := s.data[head % |s.data| := item], producer := Written(item, head))
    case Written(item, head) => s.(head := s.head + 1, producer := Ready, pushed := s.pushed + [item])
  }

  function ConsumerNext<T>(s: State<T>): State<T>
    requires s.consumer.LoadedBoth? && s.consumer.tail < s.consumer.head ==> |s.data| > 0
  {
    match s.consumer
    case Idle => s
    case LoadedOwnTail(tail) => s.(consumer := LoadedBoth(tail, s.head))
    case LoadedBoth(tail, head) =>
      if tail >= head then s.(consumer := Idle)
      else s.(consumer := Read(s.data[tail % |s.data|], tail))
    case Read(item, tail) => s.(tail := s.tail + 1, consumer := Idle, popped := s.popped + [item])
  }

  /** One atomic step of one side.  A call begins only when its side has finished the last one. */
  ghost function Next<T>(s: State<T>, a: Action<T>): State<T>
    requires Invariant(s)
  {
    match a
    case Push(item) => if s.producer.Ready? then s.(producer := LoadedHead(item, s.head)) else s
    case ProducerStep => ProducerNext(s)
    case Pop => if s.consumer.Idle? then s.(consumer := LoadedOwnTail(s.tail)) else s
    case ConsumerStep => ConsumerNext(s)
  }

  // ----- The invariant -----------------------------------------------------------------------

  /** The slot of every item pushed and not yet popped holds that item. */
  ghost predicate Stored<T>(s: State<T>)
    requires 0 <= s.tail <= s.head == |s.pushed| && s.head - s.tail <= |s.data|
  {
    forall k :: s.tail <= k < s.head ==> s.data[k % |s.data|] == s.pushed[k]
  }

  ghost predicate ProducerSound<T>(s: State<T>)
    requires 0 <= s.head
  {
    match s.producer
    case Ready => true
    case LoadedHead(item, head) => head == s.head
    case LoadedTail(item, head, tail) => head == s.head && tail <= s.tail
    case Written(item, head) => head == s.head && 0 <= head - s.tail < |s.data| && s.data[head % |s.data|] == item
  }

  ghost predicate ConsumerSound<T>(s: State<T>)
    requires 0 <= s.tail <= s.head == |s.pushed|
  {
    match s.consumer
    case Idle => true
    case LoadedOwnTail(tail) => tail == s.tail
    case LoadedBoth(tail, head) => tail == s.tail && head <= s.head
    case Read(item, tail) => tail == s.tail < s.head && item == s.pushed[tail]
  }

  ghost predicate Invariant<T>(s: State<T>) {
    && 0 <= s.tail <= s.head <= s.tail + |s.data|
    && s.head == |s.pushed| && s.tail == |s.popped|
    && s.popped == s.pushed[..s.tail]
    && Stored(s) && ProducerSound(s) && ConsumerSound(s)
  }

  lemma MultipleIsFar(n: int, size: int)
    requires size > 0
    ensures n >= 1 ==> n * size >= size
    ensures n <= 0 ==> n * size <= 0
  {
  }

  lemma Difference(p: int, q: int, size: int)
    ensures (p - q) * size == p * size - q * size
  {
  }

  lemma DistinctSlots(i: int, j: int, size: int)
    requires 0 <= i < j < i + size
    ensures i % size != j % size
  {
    var q, p := i / size, j / size;
    assert i == q * size + i % size && j == p * size + j % size;
    Difference(p, q, size);
    MultipleIsFar(p - q, size);
  }

  /** A producer about to write does not touch the slot of any item still to be read. */
  lemma WriteIsSafe<T>(s: State<T>, k: int)
    requires Invariant(s) && s.producer.LoadedTail? && !SeesFull(s, s.producer.head, s.producer.tail)
    requires s.tail <= k < s.head
    ensures s.producer.head % |s.data| != k % |s.data|
  {
    DistinctSlots(k, s.producer.head, |s.data|);
  }

  /** The two sides are never about to access the same slot. */
  lemma NoRace<T>(s: State<T>)
    requires Invariant(s) && s.producer.LoadedTail? && !SeesFull(s, s.producer.head, s.producer.tail)
    requires s.consumer.LoadedBoth? && s.consumer.tail < s.consumer.head
    ensures s.producer.head % |s.data| != s.consumer.tail % |s.data|
  {
    WriteIsSafe(s, s.consumer.tail);
  }

  lemma ProducerKeeps<T>(s: State<T>)
    requires Invariant(s)
    ensures Invariant(ProducerNext(s))
    ensures forall k :: s.tail <= k < s.head ==> ProducerNext(s).data[k % |s.data|] == s.data[k % |s.data|]
  {
    if s.producer.LoadedTail? && !SeesFull(s, s.producer.head, s.producer.tail) {
      forall k | s.tail <= k < s.head ensures s.producer.head % |s.data| != k % |s.data| {
        WriteIsSafe(s, k);
      }
    }
  }

  lemma ConsumerKeeps<T>(s: State<T>)
    requires Invariant(s)
    ensures Invariant(ConsumerNext(s))
  {
    if s.consumer.Read? {
      assert s.popped + [s.consumer.item] == s.pushed[..s.tail + 1];
    }
  }

  lemma NextKeeps<T>(s: State<T>, a: Action<T>)
    requires Invariant(s)
    ensures Invariant(Next(s, a)) && |Next(s, a).data| == |s.data|
  {
    match a
    case Push(_) =>
    case ProducerStep => ProducerKeeps(s);
    case Pop =>
    case ConsumerStep => ConsumerKeeps(s);
  }

  // ----- Refinement of a bounded queue -------------------------------------------------------

  datatype Operation<T> = Enqueue(item: T) | RefuseFull | Dequeue(item: T) | RefuseEmpty | Internal

  /** The queue a state stands for. */
  ghost function Queue<T>(s: State<T>): seq<T>
    requires Invariant(s)
  {
    s.pushed[s.tail..]
  }

  /**
   Where each call takes effect: a successful one when it moves its counter, a failing one when it
   loads the other side's.
   */
  ghost function Effect<T>(s: State<T>, a: Action<T>): Operation<T>
    requires Invariant(s)
  {
    match a
    case ProducerStep =>
      if s.producer.Written? then Enqueue(s.producer.item)
      else if s.producer.LoadedHead? && SeesFull(s, s.producer.head, s.tail) then RefuseFull
      else Internal
    case ConsumerStep =>
      if s.consumer.Read? then Dequeue(s.consumer.item)
      else if s.consumer.LoadedOwnTail? && s.consumer.tail >= s.head then RefuseEmpty
      else Internal
    case Push(_) => Internal
    case Pop => Internal
  }

  /** What a queue of bounded size allows. */
  ghost predicate Allowed<T>(size: nat, q: seq<T>, op: Operation<T>, q': seq<T>) {
    match op
    case Enqueue(x) => |q| < size && q' == q + [x]
    case RefuseFull => |q| == size && q' == q
    case Dequeue(x) => |q| > 0 && x == q[0] && q' == q[1..]
    case RefuseEmpty => q == [] && q' == q
    case Internal => q' == q
  }

  /** Every atomic step is one the bounded queue allows. */
  lemma StepRefines<T>(s: State<T>, a: Action<T>)
    requires Invariant(s)
    ensures Invariant(Next(s, a))
    ensures Allowed(|s.data|, Queue(s), Effect(s, a), Queue(Next(s, a)))
  {
    NextKeeps(s, a);
    var q, q' := Queue(s), Queue(Next(s, a));
    if a.ProducerStep? && s.producer.Written? {
      assert q' == q + [s.producer.item];
    } else if a.ConsumerStep? && s.consumer.Read? {
      assert q[0] == s.pushed[s.tail] && q' == q[1..];
    }
  }

  /**
   The producer answers false exactly when the step that loaded the tail was a refusal, whatever
   happens in between.
   */
  lemma PushAnswer<T>(s: State<T>, later: State<T>)
    requires Invariant(s) && s.producer.LoadedHead? && Invariant(later)
    requires later.producer == Next(s, ProducerStep).producer && |later.data| == |s.data|
    ensures Next(later, ProducerStep).producer.Ready? <==> Effect(s, ProducerStep).RefuseFull?
  {
  }

  lemma PopAnswer<T>(s: State<T>, later: State<T>)
    requires Invariant(s) && s.consumer.LoadedOwnTail? && Invariant(later)
    requires later.consumer == Next(s, ConsumerStep).consumer
    ensures Next(later, ConsumerStep).consumer.Idle? <==> Effect(s, ConsumerStep).RefuseEmpty?
  {
  }

  /** The state after three more steps of the producer, no one else moving. */
  ghost function ThreeProducerSteps<T>(s: State<T>): State<T>
    requires Invariant(s)
  {
    NextKeeps(s, ProducerStep);
    NextKeeps(Next(s, ProducerStep), ProducerStep);
    Next(Next(Next(s, ProducerStep), ProducerStep), ProducerStep)
  }

  ghost function ThreeConsumerSteps<T>(s: State<T>): State<T>
    requires Invariant(s)
  {
    NextKeeps(s, ConsumerStep);
    NextKeeps(Next(s, ConsumerStep), ConsumerStep);
    Next(Next(Next(s, ConsumerStep), ConsumerStep), ConsumerStep)
  }

  /** A call to Push is over after three steps, and has added its item if there was room. */
  lemma PushCompletes<T>(s: State<T>, item: T)
    requires Invariant(s) && s.producer.Ready? && Invariant(Next(s, Push(item)))
    ensures var s' := ThreeProducerSteps(Next(s, Push(item)));
            && s'.producer.Ready? && s'.popped == s.popped && s'.consumer == s.consumer
            && s'.pushed == if |s.pushed| - |s.popped| < |s.data| then s.pushed + [item] else s.pushed
  {
  }

  /** A call to Pop is over after three steps, and has taken the oldest item if there was one. */
  lemma PopCompletes<T>(s: State<T>)
    requires Invariant(s) && s.consumer.Idle? && Invariant(Next(s, Pop))
    ensures var s' := ThreeConsumerSteps(Next(s, Pop));
            && s'.consumer.Idle? && s'.pushed == s.pushed && s'.producer == s.producer
            && s'.popped == if |s.popped| < |s.pushed| then s.popped + [s.pushed[|s.popped|]] else s.popped
  {
  }

  // ----- Runs --------------------------------------------------------------------------------

  /** The state after the first n actions of a run from an empty buffer. */
  ghost function After<T>(data: seq<T>, run: seq<Action<T>>, n: nat): (s: State<T>)
    requires n <= |run|
    ensures Invariant(s) && |s.data| == |data|
  {
    if n == 0 then Initial(data)
    else
      var before := After(data, run, n - 1);
      NextKeeps(before, run[n - 1]);
      Next(before, run[n - 1])
  }

  /** Before and after every action of a run the queues are such as the bounded queue allows. */
  ghost predicate AllowedAt<T>(data: seq<T>, run: seq<Action<T>>, i: nat)
    requires i < |run|
  {
    Allowed(|data|, Queue(After(data, run, i)), Effect(After(data, run, i), run[i]), Queue(After(data, run, i + 1)))
  }

  /** In every interleaving the calls take effect one after the other as calls on a bounded queue. */
  lemma RunRefines<T>(data: seq<T>, run: seq<Action<T>>)
    ensures Queue(After(data, run, 0)) == []
    ensures forall i :: 0 <= i < |run| ==> AllowedAt(data, run, i)
  {
    forall i | 0 <= i < |run| ensures AllowedAt(data, run, i) {
      StepRefines(After(data, run, i), run[i]);
    }
  }

  /** What is popped is what was pushed, in order, and never more than the capacity is held. */
  lemma FirstInFirstOut<T>(data: seq<T>, run: seq<Action<T>>, n: nat)
    requires n <= |run|
    ensures var s := After(data, run, n);
            s.popped <= s.pushed && |s.pushed| - |s.popped| <= |data|
  {
    var s := After(data, run, n);
    assert s.popped == s.pushed[..s.tail];
  }

  // ----- The buffer as an object -------------------------------------------------------------

  class Buffer<T(0)> {
    const data: array<T>
    const size: nat
    var head: int
    var tail: int

    ghost predicate Valid()
      reads this, data
    {
      data.Length == size && 0 <= tail <= head <= tail + size
    }

    /** The items held, oldest first. */
    ghost function Contents(): (s: seq<T>)
      reads this, data
      requires Valid()
    {
      seq(head - tail, k requires 0 <= k < head - tail reads this, data requires Valid() => data[(tail + k) % size])
    }

    constructor (capacity: nat)
      ensures Valid() && Contents() == [] && size == capacity && fresh(data)
    {
      data := new T[capacity];
      size := capacity;
      head, tail := 0, 0;
    }

    method Push(item: T) returns (ok: bool)
      requires Valid()
      modifies this, data
      ensures Valid()
      ensures ok <==> |old(Contents())| < size
      ensures Contents() == if ok then old(Contents()) + [item] else old(Contents())
    {
      if head - tail >= size {
        return false;
      }
      ghost var was := Contents();
      forall k | tail <= k < head ensures k % size != head % size {
        DistinctSlots(k, head, size);
      }
      data[head % size] := item;
      head := head + 1;
      assert Contents() == was + [item];
      return true;
    }

    method Pop() returns (item: T, ok: bool)
      requires Valid()
      modifies this
      ensures Valid()
      ensures ok <==> old(Contents()) != []
      ensures ok ==> item == old(Contents())[0] && Contents() == old(Contents())[1..]
      ensures !ok ==> Contents() == []
    {
      if tail >= head {
        item := *;
        return item, false;
      }
      ghost var was := Contents();
      item := data[tail % size];
      tail := tail + 1;
      assert Contents() == was[1..];
      return item, true;
    }

    /** With no one else at work, the number of items held. */
    method Len() returns (n: nat)
      requires Valid()
      ensures n == |Contents()|
    {
      return head - tail;
    }
  }
}
