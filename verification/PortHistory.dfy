/** Whole runs of a shared port buffer: any sequence of operations by any number
    of consumers, told as the events it led to. */
module PortHistories {
  import opened Stream
  import opened PortBuffers

  datatype Operation<T> = Register(cursor: int) | Unregister(cursor: int) | Publish(item: T) | Pop(cursor: int)

  datatype Event<T> =
    | Registered(cursor: int)
    | Unregistered(cursor: int)
    | Published(item: T)
    | Popped(cursor: int, item: T)
    | Refused

  /** What was published for a consumer since it registered; nothing when it is not registered. */
  function Due<T>(history: seq<Event<T>>, cursor: int): map<int, seq<T>>
    decreases |history|
  {
    if history == [] then map[]
    else
      var before := Due(history[..|history| - 1], cursor);
      match history[|history| - 1]
      case Registered(c) => if c == cursor then map[cursor := []] else before
      case Unregistered(c) => if c == cursor then map[] else before
      case Published(item) => if cursor in before then map[cursor := before[cursor] + [item]] else before
      case Popped(_, _) => before
      case Refused => before
  }

  /** What a consumer has read since it registered, in order. */
  function Received<T>(history: seq<Event<T>>, cursor: int): seq<T>
    decreases |history|
  {
    if history == [] then []
    else
      var before := Received(history[..|history| - 1], cursor);
      match history[|history| - 1]
      case Registered(c) => if c == cursor then [] else before
      case Unregistered(_) => before
      case Published(_) => before
      case Popped(c, item) => if c == cursor then before + [item] else before
      case Refused => before
  }

  /** A consumer has read a prefix of what it is due; the rest waits in its queue. */
  ghost predicate Fair<T>(history: seq<Event<T>>, queues: map<int, seq<T>>, cursor: int) {
    && (cursor in queues <==> cursor in Due(history, cursor))
    && (cursor in queues ==> Due(history, cursor)[cursor] == Received(history, cursor) + queues[cursor])
  }

  /** What an event does to the queues, as if every consumer had its own. */
  ghost predicate Changes<T>(event: Event<T>, was: map<int, seq<T>>, now: map<int, seq<T>>) {
    match event
    case Registered(c) => c !in was && now == was[c := []]
    case Unregistered(c) => c in was && now == was - {c}
    case Published(item) => now == map c | c in was :: was[c] + [item]
    case Popped(c, item) => c in was && |was[c]| > 0 && was[c][0] == item && now == was[c := was[c][1..]]
    case Refused => now == was
  }

  lemma FairStep<T>(history: seq<Event<T>>, event: Event<T>, was: map<int, seq<T>>, now: map<int, seq<T>>, cursor: int)
    requires Fair(history, was, cursor) && Changes(event, was, now)
    ensures Fair(history + [event], now, cursor)
  {
    var h := history + [event];
    assert h[..|h| - 1] == history;
    match event
    case Registered(c) => assert Received(h, c) + [] == [];
    case Unregistered(_) =>
    case Published(item) => if cursor in was { ConcatAssociates(Received(history, cursor), was[cursor], [item]); }
    case Popped(c, item) =>
      if c == cursor { ConcatAssociates(Received(history, cursor), [was[cursor][0]], was[cursor][1..]); }
    case Refused =>
  }

  /** When an operation succeeds: a publish does exactly while no queue is full. */
  predicate Admissible<T>(operation: Operation<T>, queues: map<int, seq<T>>, maxItems: nat) {
    match operation
    case Register(c) => c !in queues
    case Unregister(c) => c in queues
    case Publish(_) => forall c :: c in queues ==> |queues[c]| < maxItems
    case Pop(c) => c in queues && |queues[c]| > 0
  }

  /** The event of a successful operation. */
  predicate EventOf<T(==)>(event: Event<T>, operation: Operation<T>) {
    match event
    case Registered(c) => operation == Register(c)
    case Unregistered(c) => operation == Unregister(c)
    case Published(item) => operation == Publish(item)
    case Popped(c, _) => operation == Pop(c)
    case Refused => false
  }

  method Perform<T(==)>(buffer: PortBuffer<T>, operation: Operation<T>) returns (event: Event<T>)
    requires buffer.Valid()
    modifies buffer
    ensures buffer.Valid() && Changes(event, old(buffer.Queues()), buffer.Queues())
    ensures if Admissible(operation, old(buffer.Queues()), buffer.maxItems) then EventOf(event, operation)
            else event == Refused
  {
    buffer.RetainedIsLargestBacklog();
    event := Refused;
    match operation {
      case Register(c) =>
        var r := buffer.RegisterConsumer(c);
        if r.Ok? { event := Registered(c); }
      case Unregister(c) =>
        var r := buffer.UnregisterConsumer(c);
        if r.Ok? { event := Unregistered(c); }
      case Publish(item) =>
        var r := buffer.Publish(item);
        if r.Ok? { event := Published(item); }
      case Pop(c) =>
        var r := buffer.Pop(c);
        if r.Ok? { event := Popped(c, r.value); }
    }
  }

  /** Independent FIFOs: after any run, every consumer has read exactly the items
      published since it registered, in order, except those still in its queue. */
  method PerformAll<T(==)>(buffer: PortBuffer<T>, operations: seq<Operation<T>>) returns (history: seq<Event<T>>)
    requires buffer.Valid() && buffer.Queues() == map[]
    modifies buffer
    ensures buffer.Valid() && |history| == |operations|
    ensures forall k :: 0 <= k < |history| ==> history[k] == Refused || EventOf(history[k], operations[k])
    ensures forall c :: Fair(history, buffer.Queues(), c)
  {
    history := [];
    for k := 0 to |operations|
      invariant buffer.Valid() && |history| == k
      invariant forall i :: 0 <= i < k ==> history[i] == Refused || EventOf(history[i], operations[i])
      invariant forall c :: Fair(history, buffer.Queues(), c)
    {
      ghost var was := buffer.Queues();
      var event := Perform(buffer, operations[k]);
      forall c ensures Fair(history + [event], buffer.Queues(), c) {
        FairStep(history, event, was, buffer.Queues(), c);
      }
      history := history + [event];
    }
  }
}
