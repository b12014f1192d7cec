/** The ring buffer shared by a producer and a consumer thread. Every load of a position, every
    begin and end of a slot access and every store is a step of its own, and the steps of the two
    threads interleave in any order over sequentially consistent memory. */
module SpscProtocol {
  import opened Basics
  import opened Bits
  import opened Fifo
  import opened SpscQueue

  /** Where the producer is inside `push`. */
  datatype Producer<T> =
    | PIdle
    | PLoaded(x: T, w: nat)               // has loaded write_pos_
    | PCleared(x: T, w: nat, next: nat)   // has loaded read_pos_ and saw room
    | PWriting(x: T, w: nat, next: nat)   // is writing the slot
    | PWritten(x: T, w: nat, next: nat)   // has written the slot

  /** Where the consumer is inside `pop`. */
  datatype Consumer<T> =
    | CIdle
    | CLoaded(r: nat)                     // has loaded read_pos_
    | CCleared(r: nat)                    // has loaded write_pos_ and saw an item
    | CReading(r: nat)                    // is reading the slot
    | CRead(r: nat, got: Cell<T>)         // has read the slot

  datatype State<T> = State(
    log: nat,
    writePos: nat,
    readPos: nat,
    data: seq<Cell<T>>,
    producer: Producer<T>,
    consumer: Consumer<T>,
    pushed: seq<T>,
    popped: seq<T>)
  {
    function Capacity(): nat { Pow2(log) }

    /** The items pushed and not yet popped. */
    function Held(): seq<T> {
      if |popped| <= |pushed| then pushed[|popped|..] else []
    }
  }

  datatype Event<T> =
    | PLoadWrite(x: T) | PLoadRead | PBegin | PEnd | PStore
    | CLoadRead | CLoadWrite | CBegin | CEnd | CStore

  function Init<T>(log: nat): State<T> {
    State(log, 0, 0, seq(Pow2(log), _ => Blank), PIdle, CIdle, [], [])
  }

  /** One step. An event that does not fit the phase of its thread does nothing. */
  function Step<T>(s: State<T>, e: Event<T>): State<T> {
    match e
    case PLoadWrite(x) =>
      if s.producer.PIdle? then s.(producer := PLoaded(x, s.writePos)) else s
    case PLoadRead =>
      if s.producer.PLoaded? then
        var next := And(s.producer.w + 1, s.Capacity() - 1);
        if next == s.readPos then s.(producer := PIdle)
        else s.(producer := PCleared(s.producer.x, s.producer.w, next))
      else s
    case PBegin =>
      if s.producer.PCleared? && s.producer.w < |s.data| then
        s.(data := s.data[s.producer.w := Torn],
           producer := PWriting(s.producer.x, s.producer.w, s.producer.next))
      else s
    case PEnd =>
      if s.producer.PWriting? && s.producer.w < |s.data| then
        s.(data := s.data[s.producer.w := Full(s.producer.x)],
           producer := PWritten(s.producer.x, s.producer.w, s.producer.next))
      else s
    case PStore =>
      if s.producer.PWritten? then
        s.(writePos := s.producer.next, producer := PIdle, pushed := s.pushed + [s.producer.x])
      else s
    case CLoadRead =>
      if s.consumer.CIdle? then s.(consumer := CLoaded(s.readPos)) else s
    case CLoadWrite =>
      if s.consumer.CLoaded? then
        if s.consumer.r == s.writePos then s.(consumer := CIdle)
        else s.(consumer := CCleared(s.consumer.r))
      else s
    case CBegin =>
      if s.consumer.CCleared? then s.(consumer := CReading(s.consumer.r)) else s
    case CEnd =>
      if s.consumer.CReading? && s.consumer.r < |s.data| then
        s.(consumer := CRead(s.consumer.r, s.data[s.consumer.r]))
      else s
    case CStore =>
      if s.consumer.CRead? then
        s.(readPos := And(s.consumer.r + 1, s.Capacity() - 1), consumer := CIdle,
           popped := s.popped + (if s.consumer.got.Full? then [s.consumer.got.item] else []))
      else s
  }

  /** What a caller sees of the step: a push takes effect when the write position is stored, a pop
      when the read position is stored, a refusal when the other side's position is loaded. */
  function Shows<T>(s: State<T>, e: Event<T>): Label<T> {
    match e
    case PStore => if s.producer.PWritten? then Enqueue(s.producer.x) else Silent
    case CStore =>
      if !s.consumer.CRead? then Silent
      else if s.consumer.got.Full? then Dequeue(s.consumer.got.item) else Garbage
    case PLoadRead =>
      if s.producer.PLoaded? && And(s.producer.w + 1, s.Capacity() - 1) == s.readPos then RefusePush else Silent
    case CLoadWrite =>
      if s.consumer.CLoaded? && s.consumer.r == s.writePos then RefusePop else Silent
    case _ => Silent
  }

  function Run<T>(log: nat, es: seq<Event<T>>): State<T> {
    if es == [] then Init(log) else Step(Run(log, es[..|es| - 1]), es[|es| - 1])
  }

  function Labels<T>(log: nat, es: seq<Event<T>>): seq<Label<T>> {
    if es == [] then []
    else Labels(log, es[..|es| - 1]) + [Shows(Run(log, es[..|es| - 1]), es[|es| - 1])]
  }

  /** The producer is writing the very slot that the consumer is reading. */
  predicate Racing<T>(s: State<T>) {
    s.producer.PWriting? && s.consumer.CReading? && s.producer.w == s.consumer.r
  }

  ghost predicate ProducerOk<T>(s: State<T>) {
    match s.producer
    case PIdle => true
    case PLoaded(_, w) => w == s.writePos
    case PCleared(_, w, next) => Room(s, w, next)
    case PWriting(_, w, next) => Room(s, w, next)
    case PWritten(x, w, next) => Room(s, w, next) && s.data[w] == Full(x)
  }

  ghost predicate Room<T>(s: State<T>, w: nat, next: nat) {
    && w == s.writePos
    && next == (|s.pushed| + 1) % s.Capacity()
    && |s.pushed| - |s.popped| < s.Capacity() - 1
    && w < |s.data|
  }

  ghost predicate ConsumerOk<T>(s: State<T>) {
    match s.consumer
    case CIdle => true
    case CLoaded(r) => r == s.readPos
    case CCleared(r) => r == s.readPos && |s.popped| < |s.pushed|
    case CReading(r) => r == s.readPos && |s.popped| < |s.pushed|
    case CRead(r, got) =>
      r == s.readPos && |s.popped| < |s.pushed| && got == Full(s.pushed[|s.popped|])
  }

  ghost predicate RingOk<T>(s: State<T>) {
    && |s.data| == s.Capacity()
    && |s.popped| <= |s.pushed| <= |s.popped| + s.Capacity() - 1
    && s.popped == s.pushed[..|s.popped|]
    && s.writePos == |s.pushed| % s.Capacity()
    && s.readPos == |s.popped| % s.Capacity()
    && forall i :: |s.popped| <= i < |s.pushed| ==> s.data[Slot(0, i, s.Capacity())] == Full(s.pushed[i])
  }

  ghost predicate Inv<T>(s: State<T>) {
    RingOk(s) && ProducerOk(s) && ConsumerOk(s)
  }

  /** Positions that agree modulo the capacity mean a full queue, one step ahead, or an empty one. */
  lemma PositionsMeet<T>(s: State<T>)
    requires RingOk(s)
    ensures (|s.pushed| + 1) % s.Capacity() == s.readPos <==> |s.Held()| == s.Capacity() - 1
    ensures s.readPos == s.writePos <==> s.Held() == []
  {
    var c, p, w := s.Capacity(), |s.popped|, |s.pushed|;
    if (w + 1) % c == p % c && w + 1 < p + c {
      ModInjective(w + 1, p, c);
    }
    ModShift(p, c);
    if w % c == p % c {
      ModInjective(w, p, c);
    }
  }

  /** The slot about to be written holds none of the items held. */
  lemma WriteSlotFree<T>(s: State<T>, i: nat)
    requires RingOk(s) && |s.popped| <= i < |s.pushed| < |s.popped| + s.Capacity()
    ensures Slot(0, i, s.Capacity()) != s.writePos
  {
    if Slot(0, i, s.Capacity()) == s.writePos {
      ModInjective(i, |s.pushed|, s.Capacity());
    }
  }

  lemma PushChecks<T>(s: State<T>)
    requires Inv(s) && s.producer.PLoaded?
    ensures And(s.producer.w + 1, s.Capacity() - 1) == (|s.pushed| + 1) % s.Capacity()
    ensures Inv(Step(s, PLoadRead))
    ensures Allows(s.Capacity(), s.Held(), Shows(s, PLoadRead), Step(s, PLoadRead).Held())
  {
    hide And, Pow2, Slot;
    PositionsMeet(s);
    AndMask(s.producer.w + 1, s.log);
    ModSucc(|s.pushed|, s.Capacity());
  }

  lemma PushWrites<T>(s: State<T>, e: Event<T>)
    requires Inv(s) && (e.PBegin? || e.PEnd?)
    ensures Inv(Step(s, e))
    ensures Allows(s.Capacity(), s.Held(), Shows(s, e), Step(s, e).Held())
  {
    if e.PBegin? && s.producer.PCleared? {
      WriteKeepsItems(s, Torn);
    } else if e.PEnd? && s.producer.PWriting? {
      WriteKeepsItems(s, Full(s.producer.x));
    }
  }

  lemma PushStores<T>(s: State<T>)
    requires Inv(s) && s.producer.PWritten?
    ensures Inv(Step(s, PStore))
    ensures Allows(s.Capacity(), s.Held(), Shows(s, PStore), Step(s, PStore).Held())
  {
    var s' := Step(s, PStore);
    assert s'.popped == s'.pushed[..|s'.popped|];
    forall i | |s'.popped| <= i < |s'.pushed|
      ensures s'.data[Slot(0, i, s.Capacity())] == Full(s'.pushed[i])
    {
    }
  }

  /** Writing the slot at the write position changes no item held. */
  lemma WriteKeepsItems<T>(s: State<T>, c: Cell<T>)
    requires Inv(s)
    requires s.producer.PCleared? || s.producer.PWriting?
    ensures RingOk(s.(data := s.data[s.producer.w := c]))
  {
    var s' := s.(data := s.data[s.producer.w := c]);
    forall i | |s.popped| <= i < |s.pushed|
      ensures s'.data[Slot(0, i, s.Capacity())] == Full(s.pushed[i])
    {
      WriteSlotFree(s, i);
    }
  }

  lemma PopReads<T>(s: State<T>, e: Event<T>)
    requires Inv(s) && (e.CLoadRead? || e.CLoadWrite? || e.CBegin? || e.CEnd?)
    ensures Inv(Step(s, e))
    ensures Allows(s.Capacity(), s.Held(), Shows(s, e), Step(s, e).Held())
  {
    hide And, Pow2;
    PositionsMeet(s);
    if s.consumer.CReading? {
      assert s.data[Slot(0, |s.popped|, s.Capacity())] == Full(s.pushed[|s.popped|]);
    }
  }

  lemma PopStores<T>(s: State<T>)
    requires Inv(s) && s.consumer.CRead?
    ensures Inv(Step(s, CStore))
    ensures Allows(s.Capacity(), s.Held(), Shows(s, CStore), Step(s, CStore).Held())
  {
    hide And, Pow2, Slot;
    var p, s' := |s.popped|, Step(s, CStore);
    AndMask(s.consumer.r + 1, s.log);
    ModSucc(p, s.Capacity());
    assert s'.popped == s.pushed[..p + 1];
    assert s.Held()[1..] == s'.Held();
  }

  lemma StepKeepsInv<T>(s: State<T>, e: Event<T>)
    requires Inv(s)
    ensures Inv(Step(s, e))
    ensures Allows(s.Capacity(), s.Held(), Shows(s, e), Step(s, e).Held())
  {
    match e
    case PLoadWrite(_) =>
    case PLoadRead => if s.producer.PLoaded? { PushChecks(s); }
    case PBegin => PushWrites(s, e);
    case PEnd => PushWrites(s, e);
    case PStore => if s.producer.PWritten? { PushStores(s); }
    case CStore => if s.consumer.CRead? { PopStores(s); }
    case _ => PopReads(s, e);
  }

  lemma InitInv<T>(log: nat)
    ensures Inv(Init<T>(log))
  {
    SmallMod(0, Pow2(log));
  }

  lemma {:induction false} RunInv<T>(log: nat, es: seq<Event<T>>)
    ensures Inv(Run(log, es)) && Run(log, es).log == log
    decreases |es|
  {
    if es == [] {
      InitInv<T>(log);
    } else {
      RunInv(log, es[..|es| - 1]);
      StepKeepsInv(Run(log, es[..|es| - 1]), es[|es| - 1]);
    }
  }

  /** In every interleaving the calls behave as on the bounded queue of module `Fifo`. */
  lemma {:induction false} RunRefinesFifo<T>(log: nat, es: seq<Event<T>>)
    ensures Legal(Pow2(log), Labels(log, es))
    ensures Contents(Labels(log, es)) == Run(log, es).Held()
    decreases |es|
  {
    if es != [] {
      var init, e := es[..|es| - 1], es[|es| - 1];
      RunRefinesFifo(log, init);
      RunInv(log, init);
      StepKeepsInv(Run(log, init), e);
      LabelsLength(log, init);
      assert Labels(log, es)[..|es| - 1] == Labels(log, init);
    }
  }

  lemma {:induction false} LabelsLength<T>(log: nat, es: seq<Event<T>>)
    ensures |Labels(log, es)| == |es|
    decreases |es|
  {
    if es != [] {
      LabelsLength(log, es[..|es| - 1]);
    }
  }

  /** What was popped is a prefix of what was pushed, at most `capacity - 1` items are held, and no
      slot is read while it is being written. */
  lemma PoppedIsPrefix<T>(log: nat, es: seq<Event<T>>)
    ensures var s := Run(log, es);
      && s.popped <= s.pushed
      && |s.pushed| - |s.popped| <= Pow2(log) - 1
      && !Racing(s)
  {
    RunInv(log, es);
    PositionsMeet(Run(log, es));
  }

  lemma StepLogs<T>(s: State<T>, e: Event<T>)
    ensures var s', l := Step(s, e), Shows(s, e);
      && s'.pushed == s.pushed + (if l.Enqueue? then [l.item] else [])
      && s'.popped == s.popped + (if l.Dequeue? then [l.item] else [])
  {
    hide And;
  }

  /** The logs of the machine are what its callers saw. */
  lemma {:induction false} LogsAreLabels<T>(log: nat, es: seq<Event<T>>)
    ensures Run(log, es).pushed == Enqueued(Labels(log, es))
    ensures Run(log, es).popped == Dequeued(Labels(log, es))
    decreases |es|
  {
    hide Step, Shows;
    if es != [] {
      var init := es[..|es| - 1];
      StepLogs(Run(log, init), es[|es| - 1]);
      LogsAreLabels(log, init);
      LabelsLength(log, init);
      assert Labels(log, es)[..|es| - 1] == Labels(log, init);
    }
  }

  /** A push is refused exactly when the queue is full at its load of the read position, a pop
      exactly when it is empty at its load of the write position. */
  lemma RefusalsAreExact<T>(log: nat, es: seq<Event<T>>)
    ensures var s := Run(log, es);
      && (s.producer.PLoaded? ==> (Shows(s, PLoadRead).RefusePush? <==> |s.Held()| == Pow2(log) - 1))
      && (s.consumer.CLoaded? ==> (Shows(s, CLoadWrite).RefusePop? <==> s.Held() == []))
  {
    hide Run, Step, Allows, And, Pow2;
    var s := Run(log, es);
    RunInv(log, es);
    PositionsMeet(s);
    if s.producer.PLoaded? {
      PushChecks(s);
    }
  }
}
